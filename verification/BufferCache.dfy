/**
 The buffer cache of bio.c over the disk primitive iderw() of memide.c.

 The buffers form a doubly linked list threaded through `next` and `prev`,
 with index HEAD standing for `bcache.head`; the ghost field `order` is that
 list from most to least recently used. `View(bn)` is what a reader of block bn
 gets: the cached copy if there is a valid one, the disk block otherwise.
 `trace` collects the medium after every disk write, that is, every state a
 crash can leave behind.
 */
module BufferCache {
  import opened Common
  import opened Bytes

  const NBUF := 30
  const HEAD: nat := NBUF
  const ROOTDEV: nat := 1

  /** struct buf; `holder` is the pid that owns the buffer's sleep-lock, 0 for nobody. */
  datatype Buf = Buf(
    dev: nat, blockno: nat, valid: bool, dirty: bool,
    refcnt: nat, holder: nat, data: Block)

  const InitialBuf := Buf(0, 0, false, false, 0, 0, ZeroBlock())

  class Cache {
    const disk: array<Block>
    const buf: array<Buf>
    const next: array<nat>
    const prev: array<nat>
    ghost var order: seq<nat>
    ghost var where: map<nat, nat> // block number -> the buffer assigned to it
    ghost var trace: seq<seq<Block>>

    /** The list threaded through next and prev is head, order, head. */
    ghost predicate Linked()
      reads this, next, prev
    {
      && Chain()
      && |order| == NBUF
      && (forall i :: 0 <= i < NBUF ==> i in order)
    }

    ghost predicate Chain()
      reads this, next, prev
    {
      && next.Length == NBUF + 1 && prev.Length == NBUF + 1 && next != prev
      && (forall k :: 0 <= k < |order| ==> order[k] < NBUF)
      && (forall j, k :: 0 <= j < k < |order| ==> order[j] != order[k])
      && Threads(next[..], prev[..], Ring(order))
    }

    static ghost function Ring(order: seq<nat>): seq<nat> {
      [HEAD] + order + [HEAD]
    }

    /** Pointers nx and pv thread the nodes of ring in this order. */
    static ghost predicate Threads(nx: seq<nat>, pv: seq<nat>, ring: seq<nat>) {
      && |nx| == |pv| == NBUF + 1
      && (forall k :: 0 <= k < |ring| ==> ring[k] <= NBUF)
      && forall k :: 0 <= k < |ring| - 1 ==> nx[ring[k]] == ring[k + 1] && pv[ring[k + 1]] == ring[k]
    }

    ghost predicate Assigned(i: nat)
      requires i < buf.Length
      reads buf
    {
      buf[i].dev == ROOTDEV
    }

    /** Each assigned block number has exactly one buffer. */
    ghost predicate Unique()
      requires buf.Length == NBUF
      reads this, buf
    {
      && (forall i :: 0 <= i < NBUF && Assigned(i) ==> buf[i].blockno in where && where[buf[i].blockno] == i)
      && (forall bn :: bn in where ==> where[bn] < NBUF && Assigned(where[bn]) && buf[where[bn]].blockno == bn)
    }

    /** What the flags, reference counts and locks mean. */
    ghost predicate BufferOk(b: Buf)
      reads disk
    {
      && (b.dev == 0 || b.dev == ROOTDEV)
      && (b.dev == 0 ==> !b.valid && !b.dirty && b.refcnt == 0)
      && (b.dev == ROOTDEV ==> b.blockno < disk.Length)
      && (b.dirty ==> b.valid)
      && (b.holder != 0 ==> b.refcnt > 0)
      && (b.valid && !b.dirty && b.holder == 0 ==> b.data == disk[b.blockno])
    }

    ghost predicate Valid()
      reads this, disk, buf, next, prev
    {
      && Linked()
      && buf.Length == NBUF
      && Unique()
      && forall i :: 0 <= i < NBUF ==> BufferOk(buf[i])
    }

    ghost predicate HasValid(bn: nat)
      requires buf.Length == NBUF && Unique()
      reads this, buf
    {
      bn in where && buf[where[bn]].valid
    }

    /** The newest contents of block bn. */
    ghost function View(bn: nat): Block
      requires Valid() && bn < disk.Length
      reads this, disk, buf, next, prev
    {
      if HasValid(bn) then buf[where[bn]].data else disk[bn]
    }

    /** The newest contents of all blocks: the plain block map that cache and disk stand for. */
    ghost function Contents(): (v: seq<Block>)
      requires Valid()
      reads this, disk, buf, next, prev
      ensures |v| == disk.Length && forall bn :: 0 <= bn < disk.Length ==> v[bn] == View(bn)
    {
      FirstContents(disk.Length)
    }

    ghost function FirstContents(k: nat): (v: seq<Block>)
      requires Valid() && k <= disk.Length
      reads this, disk, buf, next, prev
      ensures |v| == k && forall bn :: 0 <= bn < k ==> v[bn] == View(bn)
    {
      if k == 0 then [] else FirstContents(k - 1) + [View(k - 1)]
    }

    /** The cache at boot, over a medium that outlives it. */
    constructor (medium: seq<Block>)
      ensures Valid() && fresh(disk) && fresh(buf) && fresh(next) && fresh(prev)
      ensures disk[..] == medium && trace == [] && where == map[]
      ensures forall i :: 0 <= i < NBUF ==> buf[i] == InitialBuf
      ensures order == seq(NBUF, k requires 0 <= k < NBUF => NBUF - 1 - k)
    {
      disk := new Block[|medium|](i requires 0 <= i < |medium| => medium[i]);
      buf := new Buf[NBUF](_ => InitialBuf);
      next := new nat[NBUF + 1](_ => HEAD);
      prev := new nat[NBUF + 1](_ => HEAD);
      where := map[];
      trace := [];
      new;
      Binit();
    }

    /** binit(): put every buffer at the front of the list in turn. */
    method Binit()
      requires next.Length == NBUF + 1 && prev.Length == NBUF + 1 && next != prev
      requires next[HEAD] == HEAD && prev[HEAD] == HEAD
      modifies this`order, next, prev
      ensures Linked()
      ensures order == seq(NBUF, k requires 0 <= k < NBUF => NBUF - 1 - k)
    {
      order := [];
      var b := 0;
      while b < NBUF
        invariant 0 <= b <= NBUF && |order| == b
        invariant forall k :: 0 <= k < b ==> order[k] == b - 1 - k
        invariant Chain()
      {
        PushFront(b);
        b := b + 1;
      }
      forall i | 0 <= i < NBUF ensures i in order {
        assert order[NBUF - 1 - i] == i;
      }
    }

    ghost predicate Available(i: nat)
      requires i < buf.Length
      reads buf
    {
      buf[i].refcnt == 0 && !buf[i].dirty
    }

    ghost predicate NoneAvailable()
      requires buf.Length == NBUF
      reads buf
    {
      forall i :: 0 <= i < NBUF ==> !Available(i)
    }

    ghost predicate Dirty(bn: nat)
      requires buf.Length == NBUF && Unique()
      reads this, buf
    {
      bn in where && buf[where[bn]].dirty
    }

    /** A block number in use, and then which buffer holds it, found from the front of the list. */
    method FindCached(blockno: nat) returns (r: Option<nat>)
      requires Valid()
      ensures r == if blockno in where then Some(where[blockno]) else None
    {
      ghost var ring := Ring(order);
      assert next[HEAD] == next[ring[0]] == ring[1];
      var b := next[HEAD];
      ghost var k := 0;
      while b != HEAD
        invariant 0 <= k <= NBUF && b == ring[k + 1]
        invariant forall j :: 0 <= j < k ==> !(Assigned(order[j]) && buf[order[j]].blockno == blockno)
        decreases NBUF - k
      {
        if buf[b].dev == ROOTDEV && buf[b].blockno == blockno {
          return Some(b);
        }
        assert next[ring[k + 1]] == ring[k + 2];
        b := next[b];
        k := k + 1;
      }
      forall i | 0 <= i < NBUF ensures !(Assigned(i) && buf[i].blockno == blockno) {
        assert i in order;
      }
      return None;
    }

    /** The least recently used buffer that may be recycled. */
    method FindRecyclable() returns (r: Option<nat>)
      requires Valid()
      ensures r.None? <==> NoneAvailable()
      ensures r.Some? ==> exists k :: 0 <= k < NBUF && r.value == order[k] && Available(order[k]) &&
                                      forall j :: k < j < NBUF ==> !Available(order[j])
    {
      ghost var ring := Ring(order);
      assert prev[ring[NBUF + 1]] == ring[NBUF];
      var b := prev[HEAD];
      ghost var k := NBUF;
      while b != HEAD
        invariant 0 <= k <= NBUF && b == ring[k]
        invariant forall j :: k <= j < NBUF ==> !Available(order[j])
        decreases k
      {
        assert b == order[k - 1];
        if buf[b].refcnt == 0 && !buf[b].dirty {
          assert Available(b);
          return Some(b);
        }
        assert prev[ring[k]] == ring[k - 1];
        b := prev[b];
        k := k - 1;
      }
      forall i | 0 <= i < NBUF ensures !Available(i) {
        assert i in order;
      }
      return None;
    }

    /**
     bget(): the buffer of a cached block, or else the least recently used clean
     unreferenced buffer, taken over for it. None is the panic "no buffers".
     */
    method Bget(blockno: nat) returns (r: Option<nat>)
      requires Valid() && blockno < disk.Length
      modifies this`where, buf
      ensures Valid()
      ensures forall bn :: 0 <= bn < disk.Length ==> View(bn) == old(View(bn))
      ensures forall bn :: Dirty(bn) <==> old(Dirty(bn))
      ensures r.None? <==> blockno !in old(where) && old(NoneAvailable())
      ensures r.None? ==> buf[..] == old(buf[..]) && where == old(where)
      ensures r.Some? ==> r.value < NBUF && blockno in where && where[blockno] == r.value
      ensures r.Some? && blockno in old(where) ==>
        && r.value == old(where)[blockno]
        && buf[..] == old(buf[..])[r.value := old(buf[r.value]).(refcnt := old(buf[r.value].refcnt) + 1)]
      ensures r.Some? && blockno !in old(where) ==>
        && buf[..] == old(buf[..])[r.value := Buf(ROOTDEV, blockno, false, false, 1, 0, old(buf[r.value].data))]
        && exists k :: 0 <= k < NBUF && r.value == order[k] && old(Available(order[k])) &&
                       forall j :: k < j < NBUF ==> !old(Available(order[j]))
    {
      r := FindCached(blockno);
      if r.Some? {
        buf[r.value] := buf[r.value].(refcnt := buf[r.value].refcnt + 1);
        return;
      }
      r := FindRecyclable();
      if r.Some? {
        Recycle(r.value, blockno);
      }
    }

    /** Hand a clean unreferenced buffer over to another block. */
    method Recycle(b: nat, blockno: nat)
      requires Valid() && b < NBUF && Available(b) && blockno < disk.Length && blockno !in where
      modifies this`where, buf
      ensures Valid()
      ensures forall bn :: 0 <= bn < disk.Length ==> View(bn) == old(View(bn))
      ensures forall bn :: Dirty(bn) <==> old(Dirty(bn))
      ensures buf[..] == old(buf[..])[b := Buf(ROOTDEV, blockno, false, false, 1, 0, old(buf[b].data))]
      ensures blockno in where && where[blockno] == b
    {
      if buf[b].dev == ROOTDEV {
        where := where - {buf[b].blockno};
      }
      where := where[blockno := b];
      buf[b] := Buf(ROOTDEV, blockno, false, false, 1, 0, buf[b].data);
    }

    ghost predicate Holds(pid: nat, i: nat, blockno: nat)
      requires i < buf.Length
      reads buf
    {
      && Assigned(i) && buf[i].blockno == blockno
      && buf[i].holder == pid && buf[i].valid
    }

    /** Buffer i is clean and has not been changed, or its change has been logged. */
    ghost predicate Unspoiled(i: nat)
      requires i < buf.Length && (Assigned(i) ==> buf[i].blockno < disk.Length) && (buf[i].valid ==> Assigned(i))
      reads disk, buf
    {
      buf[i].valid && !buf[i].dirty ==> buf[i].data == disk[buf[i].blockno]
    }

    /**
     bread(): the buffer of a block, locked and holding the newest contents. If another process holds the buffer
     the caller sleeps until that process, which has left it unspoiled, lets go; its own lock it must not hold already.
     */
    method Bread(pid: nat, blockno: nat) returns (r: Option<nat>)
      requires Valid() && blockno < disk.Length && pid != 0
      requires blockno in where ==> buf[where[blockno]].holder != pid && Unspoiled(where[blockno])
      modifies this`where, buf
      ensures Valid()
      ensures forall bn :: 0 <= bn < disk.Length ==> View(bn) == old(View(bn))
      ensures forall bn :: Dirty(bn) <==> old(Dirty(bn))
      ensures r.None? <==> blockno !in old(where) && old(NoneAvailable())
      ensures r.None? ==> buf[..] == old(buf[..])
      ensures r.Some? ==> r.value < NBUF && Holds(pid, r.value, blockno)
      ensures r.Some? ==> buf[r.value].data == old(View(blockno))
      ensures r.Some? ==> Lent(pid, old(buf[r.value]), buf[r.value])
      ensures r.Some? ==> if blockno in old(where) then r.value == old(where)[blockno] else old(Available(r.value))
      ensures forall i :: 0 <= i < NBUF && r != Some(i) ==> buf[i] == old(buf[i])
    {
      r := Bget(blockno);
      if r.Some? {
        LockAndRead(pid, r.value);
      }
    }

    /** Another process, which holds buffer b while someone waits for it, finishes its iderw() and releases it. */
    method HolderLeaves(b: nat)
      requires Valid() && b < NBUF && Assigned(b) && buf[b].holder != 0 && buf[b].refcnt > 1 && Unspoiled(b)
      modifies buf
      ensures Valid()
      ensures forall bn :: 0 <= bn < disk.Length ==> View(bn) == old(View(bn))
      ensures buf[..] == old(buf[..])[b := old(buf[b]).(holder := 0, refcnt := old(buf[b].refcnt) - 1, valid := true,
                                                        data := old(View(buf[b].blockno)))]
    {
      if !buf[b].valid {
        buf[b] := buf[b].(data := disk[buf[b].blockno], valid := true);
      }
      buf[b] := buf[b].(holder := 0, refcnt := buf[b].refcnt - 1);
    }

    /** acquiresleep() on a referenced buffer, once its holder has left, then iderw() if it is not valid. */
    method LockAndRead(pid: nat, b: nat)
      requires Valid() && pid != 0 && b < NBUF && Assigned(b) && Unspoiled(b)
      requires buf[b].refcnt > if buf[b].holder != 0 then 1 else 0
      modifies buf
      ensures Valid()
      ensures forall bn :: 0 <= bn < disk.Length ==> View(bn) == old(View(bn))
      ensures buf[..] == old(buf[..])[b := old(buf[b]).(holder := pid, valid := true, data := old(View(buf[b].blockno)),
                                                        refcnt := old(buf[b].refcnt -
                                                          if buf[b].holder != 0 then 1 else 0))]
    {
      if buf[b].holder != 0 {
        HolderLeaves(b);
      }
      ReadLocked(pid, b);
    }

    method ReadLocked(pid: nat, b: nat)
      requires Valid() && pid != 0 && b < NBUF && Assigned(b) && buf[b].refcnt > 0 && buf[b].holder == 0
      modifies buf
      ensures Valid()
      ensures forall bn :: 0 <= bn < disk.Length ==> View(bn) == old(View(bn))
      ensures buf[..] ==
        old(buf[..])[b := old(buf[b]).(holder := pid, valid := true, data := old(View(buf[b].blockno)))]
    {
      buf[b] := buf[b].(holder := pid);
      if !buf[b].valid {
        buf[b] := buf[b].(data := disk[buf[b].blockno], valid := true);
      }
    }

    /** Changing the data of a buffer one has locked. */
    method Fill(pid: nat, b: nat, data: Block)
      requires Valid() && pid != 0 && b < NBUF && Assigned(b) && buf[b].holder == pid && buf[b].valid
      modifies buf
      ensures Valid()
      ensures buf[..] == old(buf[..])[b := old(buf[b]).(data := data)]
      ensures forall bn :: 0 <= bn < disk.Length ==>
        View(bn) == if bn == buf[b].blockno then data else old(View(bn))
    {
      buf[b] := buf[b].(data := data);
    }

    /** bwrite(): the medium takes the buffer's contents; one crash point. */
    method Bwrite(pid: nat, b: nat)
      requires Valid() && pid != 0 && b < NBUF && Assigned(b) && buf[b].holder == pid && buf[b].valid
      modifies this`trace, buf, disk
      ensures Valid()
      ensures disk[..] == old(disk[..])[old(buf[b].blockno) := old(buf[b].data)]
      ensures trace == old(trace) + [disk[..]]
      ensures buf[..] == old(buf[..])[b := old(buf[b]).(dirty := false)]
      ensures forall bn :: 0 <= bn < disk.Length ==> View(bn) == old(View(bn))
    {
      disk[buf[b].blockno] := buf[b].data;
      buf[b] := buf[b].(dirty := false, valid := true);
      trace := trace + [disk[..]];
    }

    /** log_write()'s pin: a dirty buffer is never recycled. */
    method Pin(pid: nat, b: nat)
      requires Valid() && pid != 0 && b < NBUF && Assigned(b) && buf[b].holder == pid && buf[b].valid
      modifies buf
      ensures Valid()
      ensures buf[..] == old(buf[..])[b := old(buf[b]).(dirty := true)]
      ensures forall bn :: 0 <= bn < disk.Length ==> View(bn) == old(View(bn))
    {
      buf[b] := buf[b].(dirty := true);
    }

    /**
     brelse(): unlock, drop the reference, and when it was the last one move the
     buffer to the front of the list. A changed buffer must have been logged or
     written before.
     */
    method Brelse(pid: nat, b: nat)
      requires Valid() && pid != 0 && b < NBUF && Assigned(b) && buf[b].holder == pid
      requires buf[b].valid && !buf[b].dirty ==> buf[b].data == disk[buf[b].blockno]
      modifies this`order, buf, next, prev
      ensures Valid()
      ensures buf[..] == old(buf[..])[b := old(buf[b]).(holder := 0, refcnt := old(buf[b].refcnt) - 1)]
      ensures forall bn :: 0 <= bn < disk.Length ==> View(bn) == old(View(bn))
      ensures buf[b].refcnt > 0 ==> order == old(order)
      ensures buf[b].refcnt == 0 ==>
        exists k :: 0 <= k < NBUF && old(order)[k] == b && order == [b] + old(order)[..k] + old(order)[k + 1..]
    {
      buf[b] := buf[b].(holder := 0, refcnt := buf[b].refcnt - 1);
      if buf[b].refcnt == 0 {
        MoveToFront(b);
      }
    }

    method MoveToFront(b: nat)
      requires Linked() && b < NBUF
      modifies this`order, next, prev
      ensures Linked()
      ensures exists k :: 0 <= k < NBUF && old(order)[k] == b && order == [b] + old(order)[..k] + old(order)[k + 1..]
    {
      assert b in order;
      ghost var k :| 0 <= k < NBUF && order[k] == b;
      Moved(order, k);
      Unlink(b, k);
      PushFront(b);
      assert order == [b] + old(order)[..k] + old(order)[k + 1..];
      forall i | 0 <= i < NBUF ensures i in order {
        assert i in old(order);
      }
    }

    static lemma Moved(s: seq<nat>, k: nat)
      requires k < |s| && forall i, j :: 0 <= i < j < |s| ==> s[i] != s[j]
      ensures s[k] !in s[..k] + s[k + 1..]
      ensures [s[k]] + (s[..k] + s[k + 1..]) == [s[k]] + s[..k] + s[k + 1..]
      ensures forall x :: x in s ==> x in [s[k]] + s[..k] + s[k + 1..]
    {
      var t := [s[k]] + s[..k] + s[k + 1..];
      forall x | x in s ensures x in t {
        var j :| 0 <= j < |s| && s[j] == x;
        assert t[if j < k then j + 1 else if j > k then j else 0] == x;
      }
    }

    method Unlink(b: nat, ghost k: nat)
      requires Chain() && k < |order| && order[k] == b
      modifies this`order, next, prev
      ensures Chain() && order == old(order)[..k] + old(order)[k + 1..]
    {
      UnlinkThreads(next[..], prev[..], order, k);
      prev[next[b]] := prev[b];
      next[prev[b]] := next[b];
      order := order[..k] + order[k + 1..];
    }

    static lemma UnlinkThreads(nx: seq<nat>, pv: seq<nat>, s: seq<nat>, k: nat)
      requires Threads(nx, pv, Ring(s)) && k < |s|
      requires forall i :: 0 <= i < |s| ==> s[i] < NBUF
      requires forall i, j :: 0 <= i < j < |s| ==> s[i] != s[j]
      ensures nx[s[k]] <= NBUF && pv[s[k]] <= NBUF
      ensures Threads(nx[pv[s[k]] := nx[s[k]]], pv[nx[s[k]] := pv[s[k]]], Ring(s[..k] + s[k + 1..]))
    {
      var was, ring := Ring(s), Ring(s[..k] + s[k + 1..]);
      assert was[k + 1] == s[k];
      assert nx[was[k + 1]] == was[k + 2] && pv[was[k + 1]] == was[k];
      var nx', pv' := nx[was[k] := was[k + 2]], pv[was[k + 2] := was[k]];
      forall j | 0 <= j < |ring| - 1
        ensures nx'[ring[j]] == ring[j + 1] && pv'[ring[j + 1]] == ring[j]
      {
        if j < k {
          assert ring[j] == was[j] && ring[j + 1] == was[j + 1];
        } else if j == k {
          assert ring[j] == was[j] && ring[j + 1] == was[j + 2];
        } else {
          assert ring[j] == was[j + 1] && ring[j + 1] == was[j + 2];
        }
      }
    }

    method PushFront(b: nat)
      requires Chain() && b < NBUF && b !in order
      modifies this`order, next, prev
      ensures Chain() && order == [b] + old(order)
    {
      PushThreads(next[..], prev[..], order, b);
      next[b] := next[HEAD];
      prev[b] := HEAD;
      prev[next[HEAD]] := b;
      next[HEAD] := b;
      order := [b] + order;
    }

    static lemma PushThreads(nx: seq<nat>, pv: seq<nat>, s: seq<nat>, b: nat)
      requires Threads(nx, pv, Ring(s)) && b < NBUF && b !in s
      requires forall i :: 0 <= i < |s| ==> s[i] < NBUF
      requires forall i, j :: 0 <= i < j < |s| ==> s[i] != s[j]
      ensures nx[HEAD] <= NBUF && nx[HEAD] != b
      ensures Threads(nx[b := nx[HEAD]][HEAD := b], pv[b := HEAD][nx[HEAD] := b], Ring([b] + s))
    {
      var was, ring := Ring(s), Ring([b] + s);
      assert was[0] == HEAD && nx[was[0]] == was[1];
      var nx', pv' := nx[b := nx[HEAD]][HEAD := b], pv[b := HEAD][nx[HEAD] := b];
      forall j | 0 <= j < |ring| - 1
        ensures nx'[ring[j]] == ring[j + 1] && pv'[ring[j + 1]] == ring[j]
      {
        if j >= 2 {
          assert ring[j] == was[j - 1] && ring[j + 1] == was[j] != was[1];
        } else if j == 1 {
          assert ring[1] == b && ring[2] == was[1];
        }
      }
    }

    // ------------------------------------------------ copying one block to another

    /** No buffer is referenced. */
    ghost predicate Quiet()
      requires buf.Length == NBUF
      reads buf
    {
      forall i :: 0 <= i < NBUF ==> buf[i].refcnt == 0
    }

    /** Process pid holds no buffer, and those that others hold they have not changed, or have logged. */
    ghost predicate Calm(pid: nat)
      requires Valid()
      reads this, disk, buf, next, prev
    {
      forall i :: 0 <= i < NBUF ==> buf[i].holder != pid && Unspoiled(i)
    }

    /** Buffer `now` is locked by pid; whoever else refers to it did so when it was `was`. */
    static ghost predicate Lent(pid: nat, was: Buf, now: Buf) {
      && now.holder == pid && now.refcnt >= 1 && (now.dirty ==> was.dirty)
      && (now.refcnt > 1 ==> was.refcnt >= now.refcnt - 1 && now.dev == was.dev && now.blockno == was.blockno)
    }

    /** A buffer that pid has given back: whoever else refers to it did so when it was `was`. */
    static ghost predicate Back(was: Buf, now: Buf) {
      && (now.refcnt > 0 ==> was.refcnt >= now.refcnt && now.dev == was.dev && now.blockno == was.blockno)
      && (now.holder != 0 ==> now.holder == was.holder) && (now.dirty ==> was.dirty)
    }

    /** All that was borrowed since `was` has been given back. */
    ghost predicate AllBack(was: seq<Buf>)
      requires buf.Length == NBUF
      reads buf
    {
      |was| == NBUF && forall i :: 0 <= i < NBUF ==> Back(was[i], buf[i])
    }

    /** Buffers a and b are locked by pid for blocks x and y; all others are as they were, or given back. */
    ghost predicate Pair(pid: nat, was: seq<Buf>, a: nat, x: nat, b: nat, y: nat)
      requires Valid()
      reads this, disk, buf, next, prev
    {
      && a < NBUF && b < NBUF && a != b && |was| == NBUF
      && Holds(pid, a, x) && Holds(pid, b, y) && Lent(pid, was[a], buf[a]) && Lent(pid, was[b], buf[b])
      && forall i :: 0 <= i < NBUF && i != a && i != b ==> Back(was[i], buf[i]) && buf[i].holder != pid && Unspoiled(i)
    }

    /** Buffer a is locked by pid for block x; all others are as they were, or given back. */
    ghost predicate Single(pid: nat, was: seq<Buf>, a: nat, x: nat)
      requires Valid()
      reads this, disk, buf, next, prev
    {
      && a < NBUF && |was| == NBUF && Holds(pid, a, x) && Lent(pid, was[a], buf[a])
      && forall i :: 0 <= i < NBUF && i != a ==> Back(was[i], buf[i]) && buf[i].holder != pid && Unspoiled(i)
    }

    ghost predicate NothingDirty()
      requires buf.Length == NBUF && Unique()
      reads this, buf
    {
      forall bn :: !Dirty(bn)
    }

    /** What is available stays available while others are given back. */
    lemma StaysAvailable(was: seq<Buf>, i: nat)
      requires buf.Length == NBUF && AllBack(was) && i < NBUF && was[i].refcnt == 0 && !was[i].dirty
      ensures Available(i)
    {
    }

    method BreadSingle(pid: nat, ghost was: seq<Buf>, x: nat) returns (r: Option<nat>)
      requires Valid() && Calm(pid) && pid != 0 && x < disk.Length && was == buf[..]
      modifies this`where, buf
      ensures Valid()
      ensures forall bn :: 0 <= bn < disk.Length ==> View(bn) == old(View(bn))
      ensures forall bn :: Dirty(bn) <==> old(Dirty(bn))
      ensures r.None? <==> x !in old(where) && old(NoneAvailable())
      ensures r.None? ==> buf[..] == was
      ensures r.Some? ==> Single(pid, was, r.value, x) && buf[r.value].data == View(x)
    {
      r := Bread(pid, x);
    }

    method BreadSecond(pid: nat, ghost was: seq<Buf>, a: nat, ghost x: nat, y: nat) returns (b: nat)
      requires Valid() && pid != 0 && Single(pid, was, a, x) && buf[a].data == View(x)
      requires y < disk.Length && x != y && (y in where || !NoneAvailable())
      modifies this`where, buf
      ensures Valid() && Pair(pid, was, a, x, b, y)
      ensures forall bn :: 0 <= bn < disk.Length ==> View(bn) == old(View(bn))
      ensures forall bn :: Dirty(bn) <==> old(Dirty(bn))
      ensures buf[a].data == View(x) && buf[b].data == View(y)
    {
      var r := Bread(pid, y);
      b := r.value;
    }

    /** Two breads in a row; the second block is pinned, or the cache is quiet and nothing is pinned. */
    method BreadPair(pid: nat, ghost was: seq<Buf>, x: nat, y: nat) returns (r: Option<(nat, nat)>)
      requires Valid() && Calm(pid) && pid != 0 && was == buf[..]
      requires x < disk.Length && y < disk.Length && x != y
      requires Dirty(y) || (Quiet() && NothingDirty())
      modifies this`where, buf
      ensures Valid()
      ensures forall bn :: 0 <= bn < disk.Length ==> View(bn) == old(View(bn))
      ensures forall bn :: Dirty(bn) <==> old(Dirty(bn))
      ensures r.None? <==> x !in old(where) && old(NoneAvailable())
      ensures r.None? ==> buf[..] == was
      ensures r.Some? ==> Pair(pid, was, r.value.0, x, r.value.1, y)
      ensures r.Some? ==> buf[r.value.0].data == View(x) && buf[r.value.1].data == View(y)
    {
      var a := BreadSingle(pid, was, x);
      if a.None? {
        return None;
      }
      if old(Dirty(y)) {
        assert Dirty(y);
      } else {
        QuietLeavesOne(pid, was, a.value, x);
      }
      var b := BreadSecond(pid, was, a.value, x, y);
      return Some((a.value, b));
    }

    lemma QuietLeavesOne(pid: nat, was: seq<Buf>, a: nat, x: nat)
      requires Valid() && Single(pid, was, a, x) && NothingDirty() && forall i :: 0 <= i < NBUF ==> was[i].refcnt == 0
      ensures !NoneAvailable()
    {
      var i := if a == 0 then 1 else 0;
      assert Back(was[i], buf[i]);
      assert !Dirty(buf[i].blockno);
      assert Available(i);
    }

    /** Copy the data of b into a and write a. */
    method CopyAndWrite(pid: nat, ghost was: seq<Buf>, a: nat, ghost x: nat, b: nat, ghost y: nat)
      requires Valid() && pid != 0 && Pair(pid, was, a, x, b, y)
      requires buf[b].data == View(y)
      modifies this`trace, disk, buf
      ensures Valid() && Pair(pid, was, a, x, b, y)
      ensures disk[..] == old(disk[..])[x := old(View(y))]
      ensures trace == old(trace) + [disk[..]]
      ensures forall bn :: 0 <= bn < disk.Length ==> View(bn) == if bn == x then old(View(y)) else old(View(bn))
      ensures forall bn :: Dirty(bn) <==> old(Dirty(bn)) && bn != x
      ensures buf[b] == old(buf[b]) && !buf[a].dirty && buf[a].data == old(View(y))
    {
      Fill(pid, a, buf[b].data);
      Bwrite(pid, a);
    }

    method BrelsePair(pid: nat, ghost was: seq<Buf>, a: nat, ghost x: nat, b: nat, ghost y: nat)
      requires Valid() && pid != 0 && Pair(pid, was, a, x, b, y)
      requires !buf[a].dirty ==> buf[a].data == disk[x]
      requires !buf[b].dirty ==> buf[b].data == disk[y]
      modifies this`order, buf, next, prev
      ensures Valid() && Calm(pid) && AllBack(was)
      ensures forall bn :: 0 <= bn < disk.Length ==> View(bn) == old(View(bn))
      ensures forall bn :: Dirty(bn) <==> old(Dirty(bn))
    {
      Brelse(pid, a);
      BrelseSingle(pid, was, b, y);
    }

    method BrelseSingle(pid: nat, ghost was: seq<Buf>, a: nat, ghost x: nat)
      requires Valid() && pid != 0 && Single(pid, was, a, x)
      requires !buf[a].dirty ==> buf[a].data == disk[x]
      modifies this`order, buf, next, prev
      ensures Valid() && Calm(pid) && AllBack(was)
      ensures forall bn :: 0 <= bn < disk.Length ==> View(bn) == old(View(bn))
      ensures forall bn :: Dirty(bn) <==> old(Dirty(bn))
    {
      Brelse(pid, a);
    }

    /** Copy the data of b, which holds block y, into a, write a for block x, release b and then a. */
    method CopyAndRelease(pid: nat, ghost was: seq<Buf>, a: nat, ghost x: nat, b: nat, ghost y: nat)
      requires Valid() && pid != 0 && Pair(pid, was, a, x, b, y)
      requires buf[b].data == View(y) && (!buf[b].dirty ==> buf[b].data == disk[y])
      modifies this, disk, buf, next, prev
      ensures Valid() && Calm(pid) && AllBack(was)
      ensures disk[..] == old(disk[..])[x := old(View(y))] && trace == old(trace) + [disk[..]]
      ensures forall bn :: 0 <= bn < disk.Length ==> View(bn) == if bn == x then old(View(y)) else old(View(bn))
      ensures forall bn :: Dirty(bn) <==> old(Dirty(bn)) && bn != x
    {
      CopyAndWrite(pid, was, a, x, b, y);
      BrelsePair(pid, was, b, y, a, x);
    }

    /** Read blocks x and y in this order, copy y's contents to x, write x, release y and then x. */
    method CopyToFirst(pid: nat, x: nat, y: nat) returns (ok: bool)
      requires Valid() && Calm(pid) && pid != 0
      requires x < disk.Length && y < disk.Length && x != y
      requires Dirty(y)
      modifies this, disk, buf, next, prev
      ensures Valid() && Calm(pid) && AllBack(old(buf[..]))
      ensures ok <==> x in old(where) || !old(NoneAvailable())
      ensures !ok ==> disk[..] == old(disk[..]) && trace == old(trace)
      ensures !ok ==> forall bn :: Dirty(bn) <==> old(Dirty(bn))
      ensures !ok ==> forall bn :: 0 <= bn < disk.Length ==> View(bn) == old(View(bn))
      ensures ok ==> disk[..] == old(disk[..])[x := old(View(y))] && trace == old(trace) + [disk[..]]
      ensures ok ==> forall bn :: 0 <= bn < disk.Length ==> View(bn) == if bn == x then old(View(y)) else old(View(bn))
      ensures ok ==> forall bn :: Dirty(bn) <==> old(Dirty(bn)) && bn != x
    {
      ghost var was := buf[..];
      var r := BreadPair(pid, was, x, y);
      if r.None? {
        return false;
      }
      var a, b := r.value.0, r.value.1;
      assert Dirty(y);
      CopyAndRelease(pid, was, a, x, b, y);
      return true;
    }

    /** Read blocks x and y in this order, copy x's contents to y, write y, release x and then y. */
    method CopyToSecond(pid: nat, x: nat, y: nat) returns (ok: bool)
      requires Valid() && Calm(pid) && pid != 0
      requires x < disk.Length && y < disk.Length && x != y
      requires !Dirty(x) && (Dirty(y) || (Quiet() && NothingDirty()))
      modifies this, disk, buf, next, prev
      ensures Valid() && Calm(pid) && AllBack(old(buf[..]))
      ensures ok <==> x in old(where) || !old(NoneAvailable())
      ensures ok ==> disk[..] == old(disk[..])[y := old(disk[x])] && trace == old(trace) + [disk[..]]
      ensures ok ==> forall bn :: 0 <= bn < disk.Length ==> View(bn) == if bn == y then old(disk[x]) else old(View(bn))
      ensures ok ==> forall bn :: Dirty(bn) <==> old(Dirty(bn)) && bn != y
    {
      ghost var was := buf[..];
      CleanViewIsDisk(pid, x);
      var r := BreadPair(pid, was, x, y);
      if r.None? {
        return false;
      }
      var a, b := r.value.0, r.value.1;
      CopyAndRelease(pid, was, b, y, a, x);
      return true;
    }

    /** Read a block and let go of it; None is the panic of bget(). */
    method ReadOut(pid: nat, x: nat) returns (data: Option<Block>)
      requires Valid() && Calm(pid) && pid != 0 && x < disk.Length && !Dirty(x)
      modifies this`where, this`order, buf, next, prev
      ensures Valid() && Calm(pid) && AllBack(old(buf[..]))
      ensures data == if x !in old(where) && old(NoneAvailable()) then None else Some(old(View(x)))
      ensures forall bn :: Dirty(bn) <==> old(Dirty(bn))
      ensures forall bn :: 0 <= bn < disk.Length ==> View(bn) == old(View(bn))
    {
      ghost var was := buf[..];
      CleanViewIsDisk(pid, x);
      var a := BreadSingle(pid, was, x);
      if a.None? {
        return None;
      }
      data := Some(buf[a.value].data);
      BrelseSingle(pid, was, a.value, x);
    }

    /** Put new data in a locked buffer, write it, and release it. */
    method WriteAndRelease(pid: nat, ghost was: seq<Buf>, a: nat, x: nat, data: Block)
      requires Valid() && pid != 0 && Single(pid, was, a, x)
      modifies this, disk, buf, next, prev
      ensures Valid() && Calm(pid) && AllBack(was)
      ensures disk[..] == old(disk[..])[x := data] && trace == old(trace) + [disk[..]]
      ensures forall bn :: 0 <= bn < disk.Length ==> View(bn) == if bn == x then data else old(View(bn))
      ensures forall bn :: Dirty(bn) <==> old(Dirty(bn)) && bn != x
    {
      Fill(pid, a, data);
      Bwrite(pid, a);
      BrelseSingle(pid, was, a, x);
    }

    lemma CleanViewIsDisk(pid: nat, bn: nat)
      requires Valid() && Calm(pid) && bn < disk.Length && !Dirty(bn)
      ensures View(bn) == disk[bn]
    {
    }
  }
}

/**
 The user heap of umalloc.c: the storage allocator of section 8.7 of The C Programming
 Language, second edition. Addresses count units of sizeof(Header).

 The ghost field `free` is the circular list read from its lowest node, the static
 `base`; `live` maps the header of each allocated block to its size in units; `arena` is the
 set of units obtained from sbrk(), and `claimed` the set that free and live blocks cover.
 */
module Heap {
  import opened Common

  const HEADER_BYTES := 8
  const MIN_CORE := 4096
  const HALF_SPACE := 0x1000_0000 // half of the 32-bit addresses, in units
  const MAX_REQUEST := 0x7FFF_FFF0 // the largest request that makes sbrk()'s argument a positive int

  const PAGE_UNITS := 512 // PGSIZE, in units

  /** What malloc() comes to: 0, the end of the process by a fault, or a pointer. */
  datatype Answer = Null | Faulted | Pointer(p: int)

  datatype Header = Header(ptr: int, size: nat)
  datatype Block = Block(addr: int, size: nat)

  /** What morecore() asks for: at least MIN_CORE units. */
  function CoreUnits(nunits: nat): nat {
    if nunits < MIN_CORE then MIN_CORE else nunits
  }

  // ------------------------------------------------ the free list as a sequence

  ghost function Next(f: seq<Block>, i: nat): int
    requires i < |f|
  {
    if i + 1 < |f| then f[i + 1].addr else f[0].addr
  }

  /** Ascending addresses, and a gap after every block: no two free blocks touch. */
  ghost predicate Spaced(f: seq<Block>) {
    forall i, j :: 0 <= i < j < |f| ==> f[i].addr + f[i].size < f[j].addr
  }

  ghost predicate Covers(f: seq<Block>, u: int) {
    exists i :: 0 <= i < |f| && In(f[i], u)
  }

  ghost predicate In(b: Block, u: int) {
    b.addr <= u < b.addr + b.size
  }

  /** Headers in memory spell out the circular list f. */
  ghost predicate Links(mem: map<int, Header>, f: seq<Block>) {
    forall i :: 0 <= i < |f| ==> LinkAt(mem, f, i)
  }

  ghost predicate LinkAt(mem: map<int, Header>, f: seq<Block>, i: nat)
    requires i < |f|
  {
    f[i].addr in mem && mem[f[i].addr] == Header(Next(f, i), f[i].size)
  }

  /** Block b fits between f[g] and its successor without overlap. */
  ghost predicate FitsAfter(f: seq<Block>, g: nat, b: Block) {
    && g < |f| && b.size > 0
    && f[g].addr + f[g].size <= b.addr && f[g].addr < b.addr
    && (g + 1 < |f| ==> b.addr + b.size <= f[g + 1].addr)
  }

  /** r is f with the nodes h..t replaced by the one node n. */
  ghost predicate IsSplice(r: seq<Block>, f: seq<Block>, h: nat, t: nat, n: Block) {
    && h <= t <= |f| && |r| == h + 1 + |f| - t && r[h] == n
    && (forall k :: 0 <= k < h ==> r[k] == f[k])
    && (forall k :: h < k < |r| ==> r[k] == f[k - h - 1 + t])
  }

  lemma Splice(f: seq<Block>, h: nat, t: nat, n: Block) returns (r: seq<Block>)
    requires h <= t <= |f|
    ensures IsSplice(r, f, h, t, n)
  {
    r := f[..h] + [n] + f[t..];
  }

  lemma SpliceSpaced(r: seq<Block>, f: seq<Block>, h: nat, t: nat, n: Block)
    requires IsSplice(r, f, h, t, n) && Spaced(f)
    requires h > 0 ==> f[h - 1].addr + f[h - 1].size < n.addr
    requires t < |f| ==> n.addr + n.size < f[t].addr
    ensures Spaced(r)
  {
    forall i, j | 0 <= i < j < |r| ensures r[i].addr + r[i].size < r[j].addr {
      if i < h && j == h {
        assert i < h - 1 ==> f[i].addr + f[i].size < f[h - 1].addr;
      } else if i == h {
        assert j - h - 1 > 0 ==> f[t].addr + f[t].size < f[j - h - 1 + t].addr;
      }
    }
  }

  /** A splice covers what n covers and what the kept nodes cover. */
  lemma SpliceCovers(r: seq<Block>, f: seq<Block>, h: nat, t: nat, n: Block, u: int)
    requires IsSplice(r, f, h, t, n)
    ensures Covers(r, u) <==> In(n, u) || exists k :: 0 <= k < |f| && (k < h || k >= t) && In(f[k], u)
  {
    if Covers(r, u) {
      var i :| 0 <= i < |r| && In(r[i], u);
      if i != h {
        var k := if i < h then i else i - h - 1 + t;
        assert In(f[k], u);
      }
    }
    if In(n, u) {
      assert In(r[h], u);
    }
    if exists k :: 0 <= k < |f| && (k < h || k >= t) && In(f[k], u) {
      var k :| 0 <= k < |f| && (k < h || k >= t) && In(f[k], u);
      var i := if k < h then k else k - t + h + 1;
      assert r[i] == f[k];
      assert In(r[i], u);
    }
  }

  /** The headers that must change for a splice, and no others. */
  lemma SpliceLinks(mem: map<int, Header>, m: map<int, Header>, r: seq<Block>, f: seq<Block>, h: nat, t: nat, n: Block)
    requires IsSplice(r, f, h, t, n) && f != [] && Links(mem, f) && (h == 0 ==> n.addr == f[0].addr)
    requires n.addr in m && m[n.addr] == Header(if t < |f| then f[t].addr else f[0].addr, n.size)
    requires h > 0 ==> f[h - 1].addr in m && m[f[h - 1].addr] == Header(n.addr, f[h - 1].size)
    requires forall k :: 0 <= k < |f| && (k + 1 < h || k >= t) ==> SameAt(mem, m, f[k].addr)
    ensures Links(m, r)
  {
    assert r[0].addr == f[0].addr;
    forall i | 0 <= i < |r| ensures LinkAt(m, r, i) {
      if i < h - 1 {
        assert LinkAt(mem, f, i) && SameAt(mem, m, f[i].addr);
      } else if i > h {
        var k := i - h - 1 + t;
        assert LinkAt(mem, f, k) && SameAt(mem, m, f[k].addr);
      }
    }
  }

  ghost predicate SameAt(mem: map<int, Header>, m: map<int, Header>, a: int) {
    a in mem && a in m && mem[a] == m[a]
  }

  ghost predicate Apart(x: Block, y: Block) {
    x.addr + x.size <= y.addr || y.addr + y.size <= x.addr
  }

  /** No live block overlaps a block of f. */
  ghost predicate Clear(f: seq<Block>, live: map<int, nat>) {
    forall a, i :: a in live && 0 <= i < |f| ==> Apart(f[i], Block(a, live[a]))
  }

  /** No two live blocks overlap. */
  ghost predicate Separate(live: map<int, nat>) {
    forall a, c :: a in live && c in live && a != c ==> Apart(Block(a, live[a]), Block(c, live[c]))
  }

  ghost predicate ClearOf(b: Block, live: map<int, nat>) {
    forall a :: a in live ==> Apart(b, Block(a, live[a]))
  }

  lemma SpliceClear(r: seq<Block>, f: seq<Block>, h: nat, t: nat, n: Block, live: map<int, nat>)
    requires IsSplice(r, f, h, t, n) && Clear(f, live) && ClearOf(n, live)
    ensures Clear(r, live)
  {
  }

  /** A list that begins with the empty base node, ascends, and nowhere touches itself. */
  ghost predicate ListShape(f: seq<Block>, base: int) {
    && f != [] && f[0] == Block(base, 0) && Spaced(f)
    && forall i :: 0 < i < |f| ==> f[i].size > 0
  }

  lemma SpliceShape(r: seq<Block>, f: seq<Block>, h: nat, t: nat, n: Block, base: int)
    requires IsSplice(r, f, h, t, n) && ListShape(f, base) && Spaced(r)
    requires if h == 0 then n == f[0] else n.size > 0
    ensures ListShape(r, base)
  {
  }

  // ------------------------------------------------ the list is canonical

  lemma LastUnit(f: seq<Block>, g: seq<Block>, base: int)
    requires ListShape(f, base) && ListShape(g, base) && |f| > 1
    requires forall u :: Covers(f, u) ==> Covers(g, u)
    ensures |g| > 1 && f[|f| - 1].addr + f[|f| - 1].size <= g[|g| - 1].addr + g[|g| - 1].size
  {
    var x := f[|f| - 1];
    assert In(x, x.addr + x.size - 1);
    assert Covers(g, x.addr + x.size - 1);
    var k :| 0 <= k < |g| && In(g[k], x.addr + x.size - 1);
    assert g[k].addr <= g[|g| - 1].addr;
  }

  lemma LastStart(f: seq<Block>, g: seq<Block>, base: int)
    requires ListShape(f, base) && ListShape(g, base) && |f| > 1 && |g| > 1
    requires forall u :: Covers(f, u) ==> Covers(g, u)
    requires f[|f| - 1].addr + f[|f| - 1].size == g[|g| - 1].addr + g[|g| - 1].size
    ensures g[|g| - 1].addr <= f[|f| - 1].addr
  {
    var y := g[|g| - 1];
    BeforeLast(g, base);
    assert !Covers(f, y.addr - 1);
    assert !In(f[|f| - 1], y.addr - 1);
  }

  lemma BeforeLast(g: seq<Block>, base: int)
    requires ListShape(g, base) && |g| > 1
    ensures !Covers(g, g[|g| - 1].addr - 1)
  {
  }

  lemma CoversButLast(f: seq<Block>, base: int, u: int)
    requires ListShape(f, base) && |f| > 1
    ensures Covers(f[..|f| - 1], u) <==> Covers(f, u) && !In(f[|f| - 1], u)
  {
    var p := f[..|f| - 1];
    if Covers(p, u) {
      var k :| 0 <= k < |p| && In(p[k], u);
      assert In(f[k], u) && f[k].addr + f[k].size < f[|f| - 1].addr;
    }
    if Covers(f, u) && !In(f[|f| - 1], u) {
      var k :| 0 <= k < |f| && In(f[k], u);
      assert In(p[k], u);
    }
  }

  ghost predicate SameUnits(f: seq<Block>, g: seq<Block>) {
    forall u :: Covers(f, u) <==> Covers(g, u)
  }

  /** Two lists over the same units end in the same block, and are over the same units without it. */
  lemma SameLast(f: seq<Block>, g: seq<Block>, base: int, p: seq<Block>, q: seq<Block>)
    requires ListShape(f, base) && ListShape(g, base) && SameUnits(f, g) && |f| > 1 && |g| > 1
    requires p == f[..|f| - 1] && q == g[..|g| - 1]
    ensures f[|f| - 1] == g[|g| - 1] && SameUnits(p, q)
  {
    LastUnit(f, g, base);
    LastUnit(g, f, base);
    LastStart(f, g, base);
    LastStart(g, f, base);
    forall u ensures Covers(p, u) <==> Covers(q, u) {
      CoversButLast(f, base, u);
      CoversButLast(g, base, u);
    }
  }

  lemma OneEmpty(f: seq<Block>, g: seq<Block>, base: int)
    requires ListShape(f, base) && ListShape(g, base) && SameUnits(f, g) && |f| == 1
    ensures |g| == 1
  {
    if |g| > 1 {
      LastUnit(g, f, base);
      assert false;
    }
  }

  /** Coalescing is complete: which units are free determines the list. */
  lemma {:induction false} Canonical(f: seq<Block>, g: seq<Block>, base: int)
    requires ListShape(f, base) && ListShape(g, base) && SameUnits(f, g)
    ensures f == g
    decreases |f|
  {
    if |f| == 1 {
      OneEmpty(f, g, base);
    } else if |g| == 1 {
      OneEmpty(g, f, base);
    } else {
      var p, q := f[..|f| - 1], g[..|g| - 1];
      SameLast(f, g, base, p, q);
      Canonical(p, q, base);
      assert f == p + [f[|f| - 1]] && g == q + [g[|g| - 1]];
    }
  }

  // ------------------------------------------------ giving a block back

  ghost predicate JoinsNext(f: seq<Block>, g: nat, b: Block) {
    g + 1 < |f| && b.addr + b.size == f[g + 1].addr
  }

  ghost predicate JoinsPrev(f: seq<Block>, g: nat, b: Block) {
    g < |f| && f[g].addr + f[g].size == b.addr
  }

  /** The node free() makes of block b after node g, joined to the neighbours it touches. */
  ghost function Grown(f: seq<Block>, g: nat, b: Block): Block
    requires g < |f|
  {
    var size := if JoinsNext(f, g, b) then b.size + f[g + 1].size else b.size;
    if JoinsPrev(f, g, b) then Block(f[g].addr, f[g].size + size) else Block(b.addr, size)
  }

  ghost function First(f: seq<Block>, g: nat, b: Block): nat {
    if JoinsPrev(f, g, b) then g else g + 1
  }

  ghost function Last(f: seq<Block>, g: nat, b: Block): nat {
    if JoinsNext(f, g, b) then g + 2 else g + 1
  }

  /** free() as a change of the list. */
  ghost predicate Inserted(r: seq<Block>, f: seq<Block>, g: nat, b: Block) {
    FitsAfter(f, g, b) && IsSplice(r, f, First(f, g, b), Last(f, g, b), Grown(f, g, b))
  }

  lemma GrownCovers(f: seq<Block>, g: nat, b: Block, u: int)
    requires FitsAfter(f, g, b)
    ensures In(Grown(f, g, b), u) <==>
      In(b, u) || (JoinsPrev(f, g, b) && In(f[g], u)) || (JoinsNext(f, g, b) && In(f[g + 1], u))
  {
  }

  /** free() gives back exactly the units of its block. */
  lemma InsertedCovers(r: seq<Block>, f: seq<Block>, g: nat, b: Block, u: int)
    requires Inserted(r, f, g, b)
    ensures Covers(r, u) <==> Covers(f, u) || In(b, u)
  {
    SpliceCovers(r, f, First(f, g, b), Last(f, g, b), Grown(f, g, b), u);
    GrownCovers(f, g, b, u);
  }

  lemma InsertedShape(r: seq<Block>, f: seq<Block>, g: nat, b: Block, base: int)
    requires Inserted(r, f, g, b) && ListShape(f, base)
    ensures ListShape(r, base) && g < |r| && r[g].addr == f[g].addr
    ensures r[First(f, g, b)].size >= b.size
  {
    var h, t, n := First(f, g, b), Last(f, g, b), Grown(f, g, b);
    SpliceSpaced(r, f, h, t, n);
    SpliceShape(r, f, h, t, n, base);
  }

  lemma GrownClear(f: seq<Block>, g: nat, b: Block, live: map<int, nat>)
    requires FitsAfter(f, g, b) && Clear(f, live) && ClearOf(b, live)
    requires forall a :: a in live ==> live[a] > 0
    ensures ClearOf(Grown(f, g, b), live)
  {
    forall a | a in live ensures Apart(Grown(f, g, b), Block(a, live[a])) {
      assert Apart(f[g], Block(a, live[a])) && Apart(b, Block(a, live[a]));
      assert g + 1 < |f| ==> Apart(f[g + 1], Block(a, live[a]));
    }
  }

  /** The header writes of free(), for node p and block bp. */
  ghost function FreedMem(mem: map<int, Header>, p: int, bp: int): map<int, Header>
    requires p in mem && bp in mem && mem[p].ptr in mem
  {
    var next := mem[p].ptr;
    var m1 := mem[bp := if bp + mem[bp].size == next
                        then Header(mem[next].ptr, mem[bp].size + mem[next].size)
                        else Header(next, mem[bp].size)];
    m1[p := if p + m1[p].size == bp
            then Header(m1[bp].ptr, m1[p].size + m1[bp].size)
            else Header(bp, m1[p].size)]
  }

  /** What free() leaves in the headers, in terms of the list. */
  lemma FreedHeaders(mem: map<int, Header>, f: seq<Block>, g: nat, b: Block) returns (m: map<int, Header>)
    requires Links(mem, f) && Spaced(f) && FitsAfter(f, g, b)
    requires b.addr in mem && mem[b.addr].size == b.size
    ensures f[g].addr in mem && mem[f[g].addr].ptr in mem && m == FreedMem(mem, f[g].addr, b.addr)
    ensures var n, t := Grown(f, g, b), Last(f, g, b);
      n.addr in m && m[n.addr] == Header(if t < |f| then f[t].addr else f[0].addr, n.size)
    ensures !JoinsPrev(f, g, b) ==> f[g].addr in m && m[f[g].addr] == Header(b.addr, f[g].size)
    ensures forall a :: a in mem && a != f[g].addr && a != b.addr ==> SameAt(mem, m, a)
  {
    assert LinkAt(mem, f, g) && LinkAt(mem, f, 0);
    assert f[0].addr <= f[g].addr;
    if g + 1 < |f| {
      assert LinkAt(mem, f, g + 1);
    }
    m := FreedMem(mem, f[g].addr, b.addr);
  }

  lemma OthersApart(f: seq<Block>, g: nat, b: Block, k: nat)
    requires Spaced(f) && FitsAfter(f, g, b) && k < |f| && (k < g || k >= Last(f, g, b))
    ensures f[k].addr != f[g].addr && f[k].addr != b.addr
  {
    if k > g + 1 {
      assert f[g + 1].addr <= f[k].addr;
    }
  }

  lemma InsertedLinks(mem: map<int, Header>, r: seq<Block>, f: seq<Block>, g: nat,
                      b: Block) returns (m: map<int, Header>)
    requires Links(mem, f) && Spaced(f) && Inserted(r, f, g, b)
    requires b.addr in mem && mem[b.addr].size == b.size
    ensures f[g].addr in mem && mem[f[g].addr].ptr in mem && m == FreedMem(mem, f[g].addr, b.addr)
    ensures Links(m, r)
    ensures forall a :: a in mem && a != f[g].addr && a != b.addr ==> SameAt(mem, m, a)
  {
    m := FreedHeaders(mem, f, g, b);
    var h, t, n := First(f, g, b), Last(f, g, b), Grown(f, g, b);
    forall k | 0 <= k < |f| && (k + 1 < h || k >= t) ensures SameAt(mem, m, f[k].addr) {
      OthersApart(f, g, b, k);
      assert LinkAt(mem, f, k);
    }
    if JoinsPrev(f, g, b) && g > 0 {
      OthersApart(f, g, b, g - 1);
      assert LinkAt(mem, f, g - 1);
    }
    SpliceLinks(mem, m, r, f, h, t, n);
  }

  /** Everything free() does to the list, in one place. */
  lemma Insertion(mem: map<int, Header>, f: seq<Block>, g: nat, b: Block, live: map<int, nat>, base: int)
    returns (r: seq<Block>, m: map<int, Header>)
    requires ListShape(f, base) && Links(mem, f) && FitsAfter(f, g, b)
    requires b.addr in mem && mem[b.addr].size == b.size
    requires Clear(f, live) && ClearOf(b, live)
    requires forall a :: a in live ==> live[a] > 0 && a in mem && base < a
    ensures f[g].addr in mem && mem[f[g].addr].ptr in mem && m == FreedMem(mem, f[g].addr, b.addr)
    ensures ListShape(r, base) && Links(m, r) && Clear(r, live)
    ensures g < |r| && r[g].addr == f[g].addr
    ensures exists i :: 0 <= i < |r| && r[i].size >= b.size
    ensures forall u :: Covers(r, u) <==> Covers(f, u) || In(b, u)
    ensures forall a :: a in live ==> SameAt(mem, m, a)
  {
    var h, t, n := First(f, g, b), Last(f, g, b), Grown(f, g, b);
    r := Splice(f, h, t, n);
    m := InsertedLinks(mem, r, f, g, b);
    InsertedShape(r, f, g, b, base);
    GrownClear(f, g, b, live);
    SpliceClear(r, f, h, t, n, live);
    forall u ensures Covers(r, u) <==> Covers(f, u) || In(b, u) {
      InsertedCovers(r, f, g, b, u);
    }
    forall a | a in live ensures SameAt(mem, m, a) {
      assert Apart(f[g], Block(a, live[a])) && Apart(b, Block(a, live[a]));
    }
  }

  // ------------------------------------------------ taking a block off the list

  /** malloc() with an exact fit: node i leaves the list. */
  lemma Removal(mem: map<int, Header>, f: seq<Block>, i: nat, live: map<int, nat>, base: int)
    returns (r: seq<Block>, m: map<int, Header>)
    requires ListShape(f, base) && Links(mem, f) && Clear(f, live) && 0 < i < |f|
    ensures f[i - 1].addr in mem && f[i].addr in mem
    ensures m == mem[f[i - 1].addr := Header(mem[f[i].addr].ptr, mem[f[i - 1].addr].size)]
    ensures ListShape(r, base) && Links(m, r) && Clear(r, live) && ClearOfList(r, f[i])
    ensures i - 1 < |r| && r[i - 1] == f[i - 1]
    ensures forall u :: Covers(r, u) <==> Covers(f, u) && !In(f[i], u)
  {
    r := Splice(f, i - 1, i + 1, f[i - 1]);
    m := RemovalLinks(mem, r, f, i);
    SpliceSpaced(r, f, i - 1, i + 1, f[i - 1]);
    SpliceShape(r, f, i - 1, i + 1, f[i - 1], base);
    forall u ensures Covers(r, u) <==> Covers(f, u) && !In(f[i], u) {
      RemovalCovers(r, f, i, u);
    }
    SpliceClear(r, f, i - 1, i + 1, f[i - 1], live);
  }

  lemma RemovalLinks(mem: map<int, Header>, r: seq<Block>, f: seq<Block>, i: nat) returns (m: map<int, Header>)
    requires Links(mem, f) && Spaced(f) && 0 < i < |f| && IsSplice(r, f, i - 1, i + 1, f[i - 1])
    ensures f[i - 1].addr in mem && f[i].addr in mem && Links(m, r)
    ensures m == mem[f[i - 1].addr := Header(mem[f[i].addr].ptr, mem[f[i - 1].addr].size)]
  {
    assert LinkAt(mem, f, i - 1) && LinkAt(mem, f, i);
    m := mem[f[i - 1].addr := Header(mem[f[i].addr].ptr, mem[f[i - 1].addr].size)];
    forall k | 0 <= k < |f| && k != i - 1 ensures SameAt(mem, m, f[k].addr) {
      assert LinkAt(mem, f, k);
    }
    if i - 1 > 0 {
      assert LinkAt(mem, f, i - 2);
    }
    SpliceLinks(mem, m, r, f, i - 1, i + 1, f[i - 1]);
  }

  lemma RemovalCovers(r: seq<Block>, f: seq<Block>, i: nat, u: int)
    requires Spaced(f) && 0 < i < |f| && IsSplice(r, f, i - 1, i + 1, f[i - 1])
    ensures Covers(r, u) <==> Covers(f, u) && !In(f[i], u)
  {
    SpliceCovers(r, f, i - 1, i + 1, f[i - 1], u);
    if Covers(f, u) && !In(f[i], u) {
      var k :| 0 <= k < |f| && In(f[k], u);
      assert k == i - 1 || k < i - 1 || k >= i + 1;
    }
  }

  lemma ShrinkingCovers(r: seq<Block>, f: seq<Block>, i: nat, n: nat, u: int)
    requires Spaced(f) && i < |f| && 0 < n < f[i].size
    requires IsSplice(r, f, i, i + 1, Block(f[i].addr, f[i].size - n))
    ensures Covers(r, u) <==> Covers(f, u) && !In(Block(f[i].addr + f[i].size - n, n), u)
  {
    SpliceCovers(r, f, i, i + 1, Block(f[i].addr, f[i].size - n), u);
    if Covers(f, u) && !In(Block(f[i].addr + f[i].size - n, n), u) {
      var k :| 0 <= k < |f| && In(f[k], u);
      assert k == i || k < i || k >= i + 1;
    }
  }

  ghost predicate ClearOfList(f: seq<Block>, b: Block) {
    forall i :: 0 <= i < |f| ==> Apart(f[i], b)
  }

  lemma ShrinkingLinks(mem: map<int, Header>, r: seq<Block>, f: seq<Block>, i: nat, n: nat, tail: Header)
    returns (m: map<int, Header>)
    requires Links(mem, f) && Spaced(f) && i < |f| && 0 < n < f[i].size
    requires IsSplice(r, f, i, i + 1, Block(f[i].addr, f[i].size - n))
    ensures f[i].addr in mem && Links(m, r)
    ensures m == mem[f[i].addr := Header(mem[f[i].addr].ptr, f[i].size - n)][f[i].addr + f[i].size - n := tail]
  {
    assert LinkAt(mem, f, i);
    m := mem[f[i].addr := Header(mem[f[i].addr].ptr, f[i].size - n)][f[i].addr + f[i].size - n := tail];
    forall k | 0 <= k < |f| && k != i ensures SameAt(mem, m, f[k].addr) {
      assert LinkAt(mem, f, k);
    }
    if i > 0 {
      assert LinkAt(mem, f, i - 1);
    }
    SpliceLinks(mem, m, r, f, i, i + 1, Block(f[i].addr, f[i].size - n));
  }

  lemma ShrinkingShape(r: seq<Block>, f: seq<Block>, i: nat, n: nat, base: int)
    requires ListShape(f, base) && i < |f| && 0 < n < f[i].size
    requires IsSplice(r, f, i, i + 1, Block(f[i].addr, f[i].size - n))
    ensures ListShape(r, base) && |r| == |f| && forall k :: 0 <= k < |f| ==> r[k].addr == f[k].addr
  {
    SpliceSpaced(r, f, i, i + 1, Block(f[i].addr, f[i].size - n));
    SpliceShape(r, f, i, i + 1, Block(f[i].addr, f[i].size - n), base);
  }

  lemma ShrunkClear(r: seq<Block>, f: seq<Block>, i: nat, n: nat, live: map<int, nat>)
    requires Clear(f, live) && Spaced(f) && i < |f| && 0 < n < f[i].size
    requires IsSplice(r, f, i, i + 1, Block(f[i].addr, f[i].size - n))
    ensures Clear(r, live)
    ensures ClearOfList(r, Block(f[i].addr + f[i].size - n, n))
  {
    forall a | a in live ensures Apart(Block(f[i].addr, f[i].size - n), Block(a, live[a])) {
      assert Apart(f[i], Block(a, live[a]));
    }
    SpliceClear(r, f, i, i + 1, Block(f[i].addr, f[i].size - n), live);
  }

  /** malloc() from a larger block: node i keeps its head, the tail of n units is handed out. */
  lemma Shrinking(mem: map<int, Header>, f: seq<Block>, i: nat, n: nat, tail: Header, live: map<int, nat>, base: int)
    returns (r: seq<Block>, m: map<int, Header>, b: Block)
    requires ListShape(f, base) && Links(mem, f) && Clear(f, live) && i < |f| && 0 < n < f[i].size
    ensures b == Block(f[i].addr + f[i].size - n, n)
    ensures f[i].addr in mem && m == mem[f[i].addr := Header(mem[f[i].addr].ptr, f[i].size - n)][b.addr := tail]
    ensures ListShape(r, base) && Links(m, r) && Clear(r, live) && ClearOfList(r, b)
    ensures |r| == |f| && forall k :: 0 <= k < |f| ==> r[k].addr == f[k].addr
    ensures forall u :: Covers(r, u) <==> Covers(f, u) && !In(b, u)
  {
    b := Block(f[i].addr + f[i].size - n, n);
    var head := Block(f[i].addr, f[i].size - n);
    r := Splice(f, i, i + 1, head);
    m := ShrinkingLinks(mem, r, f, i, n, tail);
    ShrinkingShape(r, f, i, n, base);
    forall u ensures Covers(r, u) <==> Covers(f, u) && !In(b, u) {
      ShrinkingCovers(r, f, i, n, u);
    }
    ShrunkClear(r, f, i, n, live);
  }

  /** Every block apart from the list has its place in it. */
  lemma {:induction false} FindGap(f: seq<Block>, b: Block) returns (g: nat)
    requires f != [] && Spaced(f) && b.size > 0 && f[0].addr < b.addr
    requires forall i :: 0 < i < |f| ==> f[i].size > 0
    requires ClearOfList(f, b)
    ensures FitsAfter(f, g, b)
  {
    var last := |f| - 1;
    if f[last].addr < b.addr {
      g := last;
    } else {
      g := FindGap(f[..last], b);
    }
  }

  /** The tests of free()'s loop hold at the place of b and nowhere else. */
  lemma GapIsUnique(f: seq<Block>, g: nat, b: Block, k: nat)
    requires Spaced(f) && FitsAfter(f, g, b) && k < |f|
    ensures b.addr > f[k].addr && b.addr < Next(f, k) <==> k == g && g + 1 < |f|
    ensures f[k].addr >= Next(f, k) && (b.addr > f[k].addr || b.addr < Next(f, k)) <==> k == g && g + 1 == |f|
  {
    assert f[0].addr <= f[k].addr && f[0].addr <= f[g].addr;
    if k < g {
      assert f[k + 1].addr <= f[g].addr;
    }
    if g + 1 < k {
      assert f[g + 1].addr <= f[k].addr;
    }
  }

  class Heap {
    const base: int
    var mem: map<int, Header>
    var freep: Option<int>
    var brk: int // all claimed units lie below
    ghost var free: seq<Block>
    ghost var live: map<int, nat>
    ghost var claimed: set<int> // the units the allocator takes for its own
    ghost var arena: set<int>   // the units sbrk() has granted and not taken back

    constructor (base: int, brk: int)
      requires 0 <= base < brk
      ensures Valid() && live == map[] && arena == {} && freep == None
      ensures this.base == base && this.brk == brk
    {
      this.base, this.brk := base, brk;
      mem := map[base := Header(0, 0)];
      freep := None;
      free, live, claimed, arena := [], map[], {}, {};
    }

    ghost predicate ListOk()
      reads this
    {
      && ListShape(free, base) && Links(mem, free)
      && freep.Some? && exists i :: 0 <= i < |free| && free[i].addr == freep.value
    }

    /** Live blocks are intact, and disjoint from one another and from the free list. */
    ghost predicate LiveOk()
      reads this
    {
      && (forall a :: a in live ==> base < a && live[a] > 0 && a in mem && mem[a].size == live[a])
      && Separate(live)
      && Clear(free, live)
    }

    ghost predicate InLive(u: int)
      reads this
    {
      InMap(live, u)
    }

    /** Conservation: the claimed units are the free ones and the live ones. */
    ghost predicate Conserved()
      reads this
    {
      && (forall u :: u in claimed <==> Covers(free, u) || InLive(u))
      && (forall u :: u in claimed ==> base < u < brk)
    }

    /** The allocator's own books are in order. */
    ghost predicate Orderly()
      reads this
    {
      && 0 <= base < brk
      && (freep.None? ==> free == [] && live == map[] && claimed == {})
      && (freep.Some? ==> ListOk())
      && LiveOk() && Conserved()
    }

    /** And what they claim is exactly what sbrk() has granted. */
    ghost predicate Valid()
      reads this
    {
      Orderly() && claimed == arena
    }

    /** The index of a node, and of the node after it in the circle. */
    ghost predicate At(i: nat, p: int)
      reads this
    {
      i < |free| && free[i].addr == p
    }

    /** The search loop of free(): the node after which block b belongs. */
    method FindPlace(b: int, ghost size: nat, ghost g: nat) returns (p: int)
      requires ListOk() && FitsAfter(free, g, Block(b, size))
      ensures p == free[g].addr
    {
      p := freep.value;
      ghost var k :| 0 <= k < |free| && free[k].addr == p;
      while !(b > p && b < mem[p].ptr)
        invariant At(k, p) && LinkAt(mem, free, k)
        decreases if k <= g then g - k else g - k + |free|
      {
        assert LinkAt(mem, free, k);
        GapIsUnique(free, g, Block(b, size), k);
        if p >= mem[p].ptr && (b > p || b < mem[p].ptr) {
          break;
        }
        p := mem[p].ptr;
        k := if k + 1 < |free| then k + 1 else 0;
      }
      assert LinkAt(mem, free, k);
      GapIsUnique(free, g, Block(b, size), k);
    }

    /** Block b is intact and clear of the free list and of the live blocks. */
    ghost predicate Loose(b: Block)
      reads this
    {
      && base < b.addr && b.size > 0 && b.addr in mem && mem[b.addr].size == b.size
      && ClearOf(b, live)
      && ClearOfList(free, b)
    }

    /** The two joins of free(). */
    method JoinNeighbours(p: int, bp: int)
      requires p in mem && bp in mem && mem[p].ptr in mem
      modifies this`mem
      ensures mem == FreedMem(old(mem), p, bp)
    {
      var next := mem[p].ptr;
      if bp + mem[bp].size == next {
        mem := mem[bp := Header(mem[next].ptr, mem[bp].size + mem[next].size)];
      } else {
        mem := mem[bp := Header(next, mem[bp].size)];
      }
      if p + mem[p].size == bp {
        mem := mem[p := Header(mem[bp].ptr, mem[p].size + mem[bp].size)];
      } else {
        mem := mem[p := Header(bp, mem[p].size)];
      }
    }

    /** free(), for a block that is no longer (or not yet) counted as live. */
    method Release(bp: int, ghost size: nat)
      requires ListOk() && LiveOk() && Loose(Block(bp, size))
      modifies this`mem, this`freep, this`free
      ensures ListOk() && LiveOk()
      ensures forall u :: Covers(free, u) <==> old(Covers(free, u)) || In(Block(bp, size), u)
      ensures exists i :: 0 <= i < |free| && free[i].size >= size
      ensures exists g: nat :: FitsAfter(old(free), g, Block(bp, size)) && freep == Some(old(free)[g].addr)
    {
      ghost var b := Block(bp, size);
      ghost var g := FindGap(free, b);
      var p := FindPlace(bp, size, g);
      ghost var r, m := Insertion(mem, free, g, b, live, base);
      JoinNeighbours(p, bp);
      freep := Some(p);
      free := r;
    }

    /**
     free(ap): the block of a live pointer goes back to the list, and nothing else changes hands. The next search starts
     at the node before the block.
     */
    method Free(ap: int)
      requires Valid() && ap - 1 in live
      modifies this`mem, this`freep, this`free, this`live
      ensures Valid() && freep.Some?
      ensures live == old(live) - {ap - 1}
      ensures forall u :: Covers(free, u) <==> old(Covers(free, u)) || In(Block(ap - 1, old(live[ap - 1])), u)
      ensures exists g: nat ::
        FitsAfter(old(free), g, Block(ap - 1, old(live[ap - 1]))) && freep == Some(old(free)[g].addr)
    {
      var bp := ap - 1;
      ghost var size := live[bp];
      ghost var before := live;
      assert forall i :: 0 <= i < |free| ==> Apart(free[i], Block(bp, before[bp]));
      WithoutIsClear(live, bp);
      live := live - {bp};
      ghost var f := free;
      Release(bp, size);
      ConservedAfterFree(claimed, f, free, before, bp);
    }

    static lemma ConservedAfterFree(arena: set<int>, f: seq<Block>, r: seq<Block>, before: map<int, nat>, bp: int)
      requires bp in before && Separate(before)
      requires forall u :: u in arena <==> Covers(f, u) || InMap(before, u)
      requires forall u :: Covers(r, u) <==> Covers(f, u) || In(Block(bp, before[bp]), u)
      ensures forall u :: u in arena <==> Covers(r, u) || InMap(before - {bp}, u)
    {
      forall u ensures u in arena <==> Covers(r, u) || InMap(before - {bp}, u) {
        LiveWithout(before, bp, u);
      }
    }

    static ghost predicate InMap(live: map<int, nat>, u: int) {
      exists a :: a in live && a <= u < a + live[a]
    }

    static lemma WithoutIsClear(before: map<int, nat>, bp: int)
      requires bp in before
      requires Separate(before)
      ensures ClearOf(Block(bp, before[bp]), before - {bp})
    {
      var after := before - {bp};
      forall a | a in after ensures Apart(Block(bp, before[bp]), Block(a, after[a])) {
        assert a in before && after[a] == before[a];
      }
    }

    static lemma LiveWithout(before: map<int, nat>, bp: int, u: int)
      requires bp in before
      requires Separate(before)
      ensures InMap(before, u) <==> InMap(before - {bp}, u) || In(Block(bp, before[bp]), u)
    {
      var after := before - {bp};
      if InMap(before, u) {
        var a :| a in before && a <= u < a + before[a];
        assert a != bp ==> a in after && after[a] == before[a];
      }
      if InMap(after, u) {
        var a :| a in after && a <= u < a + after[a];
        assert a in before && before[a] == after[a];
      }
    }

    static lemma LiveWith(before: map<int, nat>, bp: int, n: nat, u: int)
      requires bp !in before
      ensures InMap(before[bp := n], u) <==> InMap(before, u) || In(Block(bp, n), u)
    {
      var after := before[bp := n];
      if InMap(before, u) {
        var a :| a in before && a <= u < a + before[a];
        assert a in after && after[a] == before[a];
      }
      if In(Block(bp, n), u) {
        assert bp in after && after[bp] == n;
      }
    }

    static ghost function Units(a: int, n: nat): (r: set<int>)
      ensures forall u :: u in r <==> a <= u < a + n
    {
      if n == 0 then {} else Units(a, n - 1) + {a + n - 1}
    }

    /** The argument of sbrk(nu * sizeof(Header)): a 32-bit product, read as an int. */
    static function SbrkInt(nu: nat): (n: int)
      requires nu <= HALF_SPACE * 2
      ensures n > 0 <==> 0 < nu < HALF_SPACE
      ensures nu < HALF_SPACE ==> n == nu * HEADER_BYTES
    {
      var w := nu * HEADER_BYTES % UINT_LIMIT;
      if w < UINT_LIMIT / 2 then w else w - UINT_LIMIT
    }

    /**
     Whether sbrk() returns an address, in a process whose memory ends at `top`. A positive request succeeds if the
     kernel grants it; any other does, as nothing has to be mapped, unless the new size is 0.
     */
    static predicate SbrkOk(nu: nat, top: int, grants: bool)
      requires nu <= HALF_SPACE * 2
    {
      if SbrkInt(nu) > 0 then grants else SbrkInt(nu) == 0 || top + nu != HALF_SPACE * 2
    }

    /**
     The granted units after sbrk(): a positive request adds its own, a negative one adds none, and takes back what lies
     above the new size if, in 32 bits, the new size is below the old one.
     */
    static ghost function ArenaAfter(arena: set<int>, nu: nat, top: int, grants: bool): set<int> {
      if nu < HALF_SPACE then if grants then arena + Units(top, nu) else arena
      else if top + nu < HALF_SPACE * 2 then arena
      else set u | u in arena && u < top + nu - HALF_SPACE * 2
    }

    /**
     Whether the page of the old break is mapped after an sbrk() that maps nothing: the break must lie inside a page,
     and so must the new size, in the same one, if it is below the old size.
     */
    static predicate BreakStays(nu: nat, top: int) {
      && top % PAGE_UNITS != 0
      && (top + nu < HALF_SPACE * 2 || top + nu - HALF_SPACE * 2 > top - top % PAGE_UNITS)
    }

    /** morecore() writes a header at the old break; if sbrk() has granted nothing the page may not be there. */
    static predicate StoreFaults(nu: nat, top: int, grants: bool)
      requires nu <= HALF_SPACE * 2
    {
      SbrkInt(nu) <= 0 && SbrkOk(nu, top, grants) && !BreakStays(nu, top)
    }

    static predicate CoreOk(nu: nat, top: int, grants: bool)
      requires nu <= HALF_SPACE * 2
    {
      SbrkOk(nu, top, grants) && !StoreFaults(nu, top, grants)
    }

    /**
     free() compares addresses in 32 bits. Where the header can be written, the end of the new block is not the first
     node, `base`, which exec() puts in an earlier page than the break: the block is not taken for its neighbour.
     */
    static lemma EndIsNotBase(nu: nat, top: int, grants: bool, base: int)
      requires 0 < nu <= HALF_SPACE * 2 && 0 <= base < top - top % PAGE_UNITS && top <= HALF_SPACE
      requires CoreOk(nu, top, grants)
      ensures (top + nu) % (HALF_SPACE * 2) != base
    {
      if SbrkInt(nu) > 0 || top + nu < HALF_SPACE * 2 {
        assert top + nu < HALF_SPACE * 2;
      } else {
        assert (top + nu) % (HALF_SPACE * 2) == top + nu - HALF_SPACE * 2;
      }
    }

    /** morecore(): ask sbrk() for core at `top`, and free() what is taken for it. */
    method Morecore(nunits: nat, top: int, grants: bool) returns (r: Answer)
      requires Orderly() && freep.Some? && 0 < nunits <= HALF_SPACE * 2 && top >= brk
      modifies this
      ensures Orderly() && live == old(live) && freep.Some?
      ensures r.Null? <==> !SbrkOk(CoreUnits(nunits), top, grants)
      ensures r.Faulted? <==> StoreFaults(CoreUnits(nunits), top, grants)
      ensures arena == ArenaAfter(old(arena), CoreUnits(nunits), top, grants)
      ensures !r.Pointer? ==>
        free == old(free) && freep == old(freep) && mem == old(mem) && brk == old(brk) && claimed == old(claimed)
      ensures r.Pointer? ==> r.p == freep.value && claimed == old(claimed) + Units(top, CoreUnits(nunits))
      ensures r.Pointer? ==> exists i :: 0 <= i < |free| && free[i].size >= nunits
    {
      var nu := CoreUnits(nunits);
      arena := ArenaAfter(arena, nu, top, grants);
      if !SbrkOk(nu, top, grants) {
        return Null;
      }
      if StoreFaults(nu, top, grants) {
        return Faulted;
      }
      AddCore(top, nu);
      return Pointer(freep.value);
    }

    /** hp->s.size = nu; free(hp + 1), for the units from `top` on. */
    method AddCore(top: int, nu: nat)
      requires Orderly() && freep.Some? && nu > 0 && top >= brk
      modifies this`mem, this`freep, this`free, this`brk, this`claimed
      ensures Orderly() && freep.Some?
      ensures claimed == old(claimed) + Units(top, nu) && exists i :: 0 <= i < |free| && free[i].size >= nu
    {
      NewCoreIsLoose(top, nu);
      mem := mem[top := Header(if top in mem then mem[top].ptr else 0, nu)];
      assert Links(mem, free) by {
        forall i | 0 <= i < |free| ensures LinkAt(mem, free, i) {
          assert old(LinkAt(mem, free, i));
          assert Apart(free[i], Block(top, nu));
        }
      }
      brk := top + nu;
      claimed := claimed + Units(top, nu);
      Release(top, nu);
    }

    /** Memory beyond the break overlaps nothing. */
    lemma NewCoreIsLoose(hp: int, nu: nat)
      requires Orderly() && hp >= brk && nu > 0
      ensures ClearOf(Block(hp, nu), live) && ClearOfList(free, Block(hp, nu))
      ensures forall a :: a in live ==> a + live[a] <= hp
      ensures forall i :: 0 <= i < |free| ==> free[i].addr + free[i].size <= hp && free[i].addr < hp
    {
      forall a | a in live ensures a + live[a] <= hp {
        assert a <= a + live[a] - 1 < a + live[a];
        assert InLive(a + live[a] - 1);
      }
      forall i | 0 <= i < |free| ensures free[i].addr + free[i].size <= hp && free[i].addr < hp {
        if i > 0 {
          assert In(free[i], free[i].addr + free[i].size - 1);
          assert Covers(free, free[i].addr + free[i].size - 1);
        }
      }
    }

    // ------------------------------------------------ malloc

    /** Part of a free block becomes live. */
    static lemma Allocated(arena: set<int>, f: seq<Block>, r: seq<Block>, live: map<int, nat>, b: Block, i: nat)
      requires i < |f| && b.size > 0 && f[i].addr <= b.addr && b.addr + b.size <= f[i].addr + f[i].size
      requires Clear(f, live) && Clear(r, live) && ClearOfList(r, b) && Separate(live)
      requires forall a :: a in live ==> live[a] > 0
      requires forall u :: Covers(r, u) <==> Covers(f, u) && !In(b, u)
      requires forall u :: u in arena <==> Covers(f, u) || InMap(live, u)
      ensures b.addr !in live
      ensures Separate(live[b.addr := b.size]) && Clear(r, live[b.addr := b.size])
      ensures forall u :: u in arena <==> Covers(r, u) || InMap(live[b.addr := b.size], u)
    {
      assert forall a :: a in live ==> Apart(f[i], Block(a, live[a]));
      forall u ensures u in arena <==> Covers(r, u) || InMap(live[b.addr := b.size], u) {
        LiveWith(live, b.addr, b.size, u);
        assert In(b, u) ==> In(f[i], u);
      }
    }

    /** Live headers are not list nodes. */
    lemma LiveIsNoNode(a: int, i: nat)
      requires ListOk() && LiveOk() && a in live && i < |free|
      ensures a != free[i].addr && !(free[i].addr <= a < free[i].addr + free[i].size)
    {
      assert Apart(free[i], Block(a, live[a]));
    }

    /** p fits exactly: unlink it from its predecessor. */
    method TakeAll(prevp: int, p: int, ghost i: nat)
      requires Orderly() && freep.Some? && 0 < i < |free| && At(i, p) && At(i - 1, prevp)
      modifies this`mem, this`freep, this`free, this`live
      ensures Orderly() && freep == Some(prevp)
      ensures p !in old(live) && live == old(live)[p := old(free)[i].size]
    {
      ghost var b := free[i];
      ghost var r, m := Removal(mem, free, i, live, base);
      Allocated(claimed, free, r, live, b, i);
      forall a | a in live ensures SameAt(mem, m, a) {
        LiveIsNoNode(a, i - 1);
      }
      assert LinkAt(mem, free, i) && p != prevp;
      mem := mem[prevp := Header(mem[p].ptr, mem[prevp].size)];
      freep := Some(prevp);
      free := r;
      live := live[p := b.size];
      assert free[i - 1].addr == prevp;
    }

    /** The books of a heap with this memory, list and live blocks would be in order. */
    ghost predicate Would(m: map<int, Header>, r: seq<Block>, l: map<int, nat>)
      reads this
    {
      && ListShape(r, base) && Links(m, r)
      && (forall a :: a in l ==> base < a && l[a] > 0 && a in m && m[a].size == l[a])
      && Separate(l) && Clear(r, l)
      && (forall u :: u in claimed <==> Covers(r, u) || InMap(l, u))
    }

    lemma LiveKept(m: map<int, Header>, at: int, n: nat, l: map<int, nat>)
      requires LiveOk() && (forall a :: a in live ==> SameAt(mem, m, a)) && at !in live && l == live[at := n]
      requires base < at && n > 0 && at in m && m[at].size == n
      ensures forall a :: a in l ==> base < a && l[a] > 0 && a in m && m[a].size == l[a]
    {
      forall a | a in l ensures base < a && l[a] > 0 && a in m && m[a].size == l[a] {
        assert a in live ==> SameAt(mem, m, a);
      }
    }

    lemma TailTaken(n: nat, tail: Header, i: nat, at: int) returns (r: seq<Block>, m: map<int, Header>,
                    l: map<int, nat>)
      requires Orderly() && freep.Some? && i < |free| && 0 < n < free[i].size && tail.size == n
      requires at == free[i].addr + free[i].size - n
      ensures free[i].addr in mem &&
              m == mem[free[i].addr := Header(mem[free[i].addr].ptr, free[i].size - n)][at := tail]
      ensures at !in live && l == live[at := n] && Would(m, r, l)
      ensures |r| == |free| && forall k :: 0 <= k < |free| ==> r[k].addr == free[k].addr
    {
      var b;
      r, m, b := Shrinking(mem, free, i, n, tail, live, base);
      Allocated(claimed, free, r, live, b, i);
      forall a | a in live ensures SameAt(mem, m, a) {
        LiveIsNoNode(a, i);
      }
      assert free[0].addr <= free[i].addr;
      l := live[at := n];
      LiveKept(m, at, n, l);
    }

    /** p is larger: hand out its tail. */
    method TakeTail(prevp: int, p: int, n: nat, ghost i: nat, ghost k: nat) returns (at: int)
      requires Orderly() && freep.Some? && i < |free| && At(i, p) && 0 < n < free[i].size
      requires At(k, prevp)
      modifies this`mem, this`freep, this`free, this`live
      ensures Orderly() && freep == Some(prevp)
      ensures at !in old(live) && live == old(live)[at := n] && at == old(free)[i].addr + old(free)[i].size - n
    {
      assert LinkAt(mem, free, i);
      var size := mem[p].size - n;
      at := p + size;
      var tail := Header(if at in mem then mem[at].ptr else 0, n);
      ghost var r, m, l := TailTaken(n, tail, i, at);
      mem := mem[p := Header(mem[p].ptr, size)];
      mem := mem[at := tail];
      Settle(prevp, m, r, l, k);
    }

    /** The end of a step whose books are known to be in order. */
    method Settle(prevp: int, ghost m: map<int, Header>, ghost r: seq<Block>, ghost l: map<int, nat>, ghost k: nat)
      requires Would(m, r, l) && mem == m && k < |r| && r[k].addr == prevp && 0 <= base < brk
      requires forall u :: u in claimed ==> base < u < brk
      modifies this`freep, this`free, this`live
      ensures Orderly() && freep == Some(prevp) && live == l && free == r
    {
      freep := Some(prevp);
      free := r;
      live := l;
    }

    ghost function Succ(k: nat): nat
      reads this
    {
      if k + 1 < |free| then k + 1 else 0
    }

    /** The nodes met on the way from node k (exclusive) round to node j (exclusive). */
    static ghost predicate Between(k: nat, i: nat, j: nat) {
      if k < j then k < i < j else i > k || i < j
    }

    ghost predicate Fits(n: nat)
      reads this
    {
      exists i :: 0 <= i < |free| && free[i].size >= n
    }

    /** j is the first node after k in the circle that has n units, and q the one before it. */
    static ghost predicate FirstFit(f: seq<Block>, k: nat, q: nat, j: nat, n: nat) {
      && k < |f| && q < |f| && j < |f| && j == (if q + 1 < |f| then q + 1 else 0) && f[j].size >= n
      && forall i :: 0 <= i < |f| && Between(k, i, j) ==> f[i].size < n
    }

    /**
     What malloc() takes from list f when its last search ended at node `from`: the last n units of the next block that
     has as many. The next search starts where this one ended, at the node before that block.
     */
    static ghost predicate NextFit(f: seq<Block>, from: int, n: nat, at: int, to: int) {
      exists k: nat, q: nat, j: nat :: FirstFit(f, k, q, j, n) && f[k].addr == from && f[q].addr == to &&
                                       at == f[j].addr + f[j].size - n
    }

    /** malloc()'s loop stands at node j with predecessor q, and has met only smaller blocks since freep, node k. */
    ghost predicate Searching(n: nat, k: nat, q: nat, j: nat, prevp: int, p: int)
      reads this
    {
      && Orderly() && freep.Some? && n > 0
      && At(k, freep.value) && At(q, prevp) && At(j, p) && j == Succ(q)
      && forall i :: 0 <= i < |free| && Between(k, i, j) ==> free[i].size < n
    }

    /** Put the search at the node after freep. */
    method Restart(ghost n: nat) returns (p: int, ghost k: nat)
      requires Orderly() && freep.Some? && n > 0
      ensures Searching(n, k, k, Succ(k), freep.value, p)
    {
      k :| 0 <= k < |free| && free[k].addr == freep.value;
      assert LinkAt(mem, free, k);
      p := mem[freep.value].ptr;
    }

    /** Take n units from node j, which is large enough. */
    method Take(n: nat, ghost k: nat, ghost q: nat, ghost j: nat, prevp: int, p: int) returns (at: int)
      requires Searching(n, k, q, j, prevp, p) && free[j].size >= n
      modifies this`mem, this`freep, this`free, this`live
      ensures Orderly() && freep == Some(prevp)
      ensures at !in old(live) && live == old(live)[at := n]
      ensures NextFit(old(free), old(freep).value, n, at, prevp)
    {
      assert LinkAt(mem, free, j);
      assert FirstFit(free, k, q, j, n);
      if mem[p].size == n {
        TakeAll(prevp, p, j);
        at := p;
      } else {
        at := TakeTail(prevp, p, n, j, q);
      }
    }

    /** malloc()'s loop from freep once round the circle: the first node that is large enough, if there is one. */
    method Search(n: nat) returns (found: bool, prevp: int, p: int, ghost k: nat, ghost q: nat, ghost j: nat)
      requires Orderly() && freep.Some? && n > 0
      ensures found <==> Fits(n)
      ensures found ==> Searching(n, k, q, j, prevp, p) && free[j].size >= n
    {
      prevp := freep.value;
      p, k := Restart(n);
      q, j := k, Succ(k);
      while true
        invariant Searching(n, k, q, j, prevp, p)
        decreases Distance(j, k)
      {
        assert LinkAt(mem, free, j);
        if mem[p].size >= n {
          found := true;
          return;
        }
        if p == freep.value {
          Exhausted(n, k, q, j, prevp, p);
          found := false;
          return;
        }
        Advance(n, k, q, j, prevp, p);
        prevp, p := p, mem[p].ptr;
        q, j := j, Succ(j);
      }
    }

    /** Search and take, when some block is large enough. */
    method TakeNext(n: nat) returns (at: int)
      requires Orderly() && freep.Some? && n > 0 && Fits(n)
      modifies this`mem, this`freep, this`free, this`live
      ensures Orderly() && freep.Some? && at !in old(live) && live == old(live)[at := n]
      ensures NextFit(old(free), old(freep).value, n, at, freep.value)
    {
      var found, prevp, p;
      ghost var k, q, j;
      found, prevp, p, k, q, j := Search(n);
      at := Take(n, k, q, j, prevp, p);
    }

    /** malloc() when no block is large enough. */
    method AskForMore(n: nat, top: int, grants: bool) returns (r: Answer)
      requires Orderly() && freep.Some? && 0 < n <= HALF_SPACE * 2 && top >= brk
      modifies this
      ensures Orderly() && freep.Some?
      ensures r.Pointer? <==> CoreOk(CoreUnits(n), top, grants)
      ensures r.Faulted? <==> StoreFaults(CoreUnits(n), top, grants)
      ensures !r.Pointer? ==> live == old(live) && claimed == old(claimed)
      ensures r.Pointer? ==> r.p !in old(live) && live == old(live)[r.p := n]
      ensures arena == ArenaAfter(old(arena), CoreUnits(n), top, grants)
      ensures r.Pointer? ==> claimed == old(claimed) + Units(top, CoreUnits(n))
    {
      r := Morecore(n, top, grants);
      if r.Pointer? {
        var at := TakeNext(n);
        return Pointer(at);
      }
    }

    /**
     malloc() in units: the block found, if any. sbrk() is asked exactly when no free block is large enough, and then
     only once; `top` is where the memory of the process ends, and `grants` whether the kernel would give it more.
     */
    method Allocate(n: nat, top: int, grants: bool) returns (r: Answer)
      requires Orderly() && freep.Some? && 0 < n <= HALF_SPACE * 2 && top >= brk
      modifies this
      ensures Orderly() && freep.Some?
      ensures r.Pointer? <==> old(Fits(n)) || CoreOk(CoreUnits(n), top, grants)
      ensures r.Faulted? <==> !old(Fits(n)) && StoreFaults(CoreUnits(n), top, grants)
      ensures !r.Pointer? ==> live == old(live) && claimed == old(claimed)
      ensures r.Pointer? ==> r.p !in old(live) && live == old(live)[r.p := n]
      ensures old(Fits(n)) ==> arena == old(arena) && claimed == old(claimed)
      ensures !old(Fits(n)) ==> arena == ArenaAfter(old(arena), CoreUnits(n), top, grants)
      ensures !old(Fits(n)) && r.Pointer? ==> claimed == old(claimed) + Units(top, CoreUnits(n))
      ensures old(Fits(n)) ==> NextFit(old(free), old(freep).value, n, r.p, freep.value)
    {
      var found, prevp, p;
      ghost var k, q, j;
      found, prevp, p, k, q, j := Search(n);
      if found {
        var at := Take(n, k, q, j, prevp, p);
        return Pointer(at);
      }
      r := AskForMore(n, top, grants);
    }

    ghost function Distance(j: nat, k: nat): nat
      reads this
    {
      if j <= k then k - j else if j < |free| then k - j + |free| else 0
    }

    lemma Advance(n: nat, k: nat, q: nat, j: nat, prevp: int, p: int)
      requires Searching(n, k, q, j, prevp, p) && free[j].size < n && p != freep.value
      ensures p in mem && Searching(n, k, j, Succ(j), p, mem[p].ptr)
      ensures Distance(Succ(j), k) < Distance(j, k)
    {
      assert LinkAt(mem, free, j);
    }

    lemma Exhausted(n: nat, k: nat, q: nat, j: nat, prevp: int, p: int)
      requires Searching(n, k, q, j, prevp, p) && free[j].size < n && p == freep.value
      ensures !Fits(n)
    {
      assert j == k;
    }

    // ------------------------------------------------ malloc in bytes

    /** malloc()'s size computation, in 32-bit unsigned arithmetic. */
    static function Nunits(nbytes: nat): (n: nat)
      requires nbytes < UINT_LIMIT
      ensures 0 < n <= 0x2000_0000
    {
      (nbytes + HEADER_BYTES - 1) % UINT_LIMIT / HEADER_BYTES + 1
    }

    /** The units leave room for nbytes besides the header exactly when the rounding does not wrap. */
    static lemma NunitsRoom(nbytes: nat)
      requires nbytes < UINT_LIMIT
      ensures (Nunits(nbytes) - 1) * HEADER_BYTES >= nbytes <==> nbytes <= UINT_LIMIT - HEADER_BYTES
      ensures nbytes <= UINT_LIMIT - HEADER_BYTES ==> (Nunits(nbytes) - 1) * HEADER_BYTES < nbytes + HEADER_BYTES
    {
    }

    /** For such a size, sbrk()'s argument is positive exactly up to 2^31 - 16 bytes. */
    static lemma NunitsPositive(nbytes: nat)
      requires nbytes <= UINT_LIMIT - HEADER_BYTES
      ensures Nunits(nbytes) < HALF_SPACE <==> nbytes <= MAX_REQUEST
      ensures SbrkInt(CoreUnits(Nunits(nbytes))) > 0 <==> nbytes <= MAX_REQUEST
    {
    }

    /** Three requests that no free block satisfies:
     a negative sbrk() argument, none at all, and a block with no room. */
    static lemma HugeRequests()
      ensures SbrkInt(CoreUnits(Nunits(0x8000_0000))) < 0
      ensures SbrkInt(CoreUnits(Nunits(UINT_LIMIT - HEADER_BYTES))) == 0
      ensures Nunits(UINT_LIMIT - 1) == 1 && SbrkInt(CoreUnits(Nunits(UINT_LIMIT - 1))) == 32768
    {
    }

    /** A live block at `at`, all of whose units are granted. */
    ghost predicate Granted(at: int)
      reads this
    {
      at in live && forall u :: at <= u < at + live[at] ==> u in arena
    }

    /** The caller has got nbytes of its own: behind the header of a live block of granted units. */
    ghost predicate Delivered(r: Answer, nbytes: nat)
      reads this
    {
      r.Pointer? && Granted(r.p - 1) && (live[r.p - 1] - 1) * HEADER_BYTES >= nbytes
    }

    /** A stretch of units that a list covers lies in one of its blocks. */
    static lemma {:induction false} RunInOne(f: seq<Block>, a: int, n: nat) returns (i: nat)
      requires Spaced(f) && n > 0 && forall u :: a <= u < a + n ==> Covers(f, u)
      ensures i < |f| && f[i].addr <= a && a + n <= f[i].addr + f[i].size
      decreases n
    {
      var u := a + n - 1;
      assert Covers(f, u);
      var j :| 0 <= j < |f| && In(f[j], u);
      i := j;
      if n > 1 {
        var h := RunInOne(f, a, n - 1);
        assert In(f[h], u - 1);
        assert h == j;
      }
    }

    static lemma Beside(live: map<int, nat>, at: int, n: nat, a: int, u: int)
      requires at !in live && a in live && Separate(live[at := n]) && live[a] > 0
      ensures !(at <= u < at + n && a <= u < a + live[a])
    {
      var l := live[at := n];
      assert Apart(Block(at, l[at]), Block(a, l[a]));
    }

    /** If no free block was large enough and sbrk() added nothing, the block handed out is not all granted. */
    static lemma NeverGranted(f: seq<Block>, live: map<int, nat>, ar: set<int>, at: int, n: nat)
      requires Spaced(f) && n > 0 && at !in live && Separate(live[at := n]) && (forall a :: a in live ==> live[a] > 0)
      requires forall u :: u in ar ==> Covers(f, u) || InMap(live, u)
      requires forall i :: 0 <= i < |f| ==> f[i].size < n
      ensures exists u :: at <= u < at + n && u !in ar
    {
      if forall u :: at <= u < at + n ==> u in ar {
        forall u | at <= u < at + n ensures Covers(f, u) {
          forall a | a in live ensures !(a <= u < a + live[a]) {
            Beside(live, at, n, a, u);
          }
        }
        var i := RunInOne(f, at, n);
        assert false;
      }
    }

    /** Every unit of a live block is claimed. */
    lemma LiveIsClaimed(at: int)
      requires Orderly() && at in live
      ensures forall u :: at <= u < at + live[at] ==> u in claimed
    {
      forall u | at <= u < at + live[at] ensures u in claimed {
        assert InLive(u);
      }
    }

    /** The first call of malloc() makes the list of the one node `base`. */
    method InitList()
      requires Valid()
      modifies this`mem, this`freep, this`free
      ensures Valid() && freep.Some? && (forall n: nat :: n > 0 ==> (Fits(n) <==> old(Fits(n))))
      ensures old(freep).Some? ==> free == old(free) && freep == old(freep)
    {
      if freep.None? {
        mem := mem[base := Header(base, 0)];
        freep := Some(base);
        free := [Block(base, 0)];
        assert LinkAt(mem, free, 0);
      }
    }

    /** The block at `at` is granted memory exactly if a block fitted or sbrk()'s argument was positive. */
    lemma GrantedIff(at: int, n: nat, top: int, grants: bool, f: seq<Block>, l: map<int, nat>, ar: set<int>, fits: bool)
      requires Orderly() && 0 < n <= HALF_SPACE * 2 && at !in l && live == l[at := n] &&
               (forall a :: a in l ==> l[a] > 0)
      requires Spaced(f) && (forall u :: u in ar ==> Covers(f, u) || InMap(l, u))
      requires fits <==> exists i :: 0 <= i < |f| && f[i].size >= n
      requires fits || n < HALF_SPACE ==> claimed == arena
      requires !fits ==> arena == ArenaAfter(ar, CoreUnits(n), top, grants)
      ensures Granted(at) <==> fits || n < HALF_SPACE
    {
      if fits || n < HALF_SPACE {
        LiveIsClaimed(at);
      } else {
        NeverGranted(f, l, arena, at, n);
      }
    }

    /** malloc() once it has the number of units. */
    method MallocUnits(n: nat, top: int, grants: bool) returns (r: Answer)
      requires Valid() && 0 < n <= HALF_SPACE * 2 && top >= brk
      modifies this
      ensures Orderly()
      ensures r.Pointer? <==> old(Fits(n)) || CoreOk(CoreUnits(n), top, grants)
      ensures r.Faulted? <==> !old(Fits(n)) && StoreFaults(CoreUnits(n), top, grants)
      ensures !r.Pointer? ==> live == old(live)
      ensures r.Pointer? ==> r.p !in old(live) && live == old(live)[r.p := n]
      ensures old(Fits(n)) || n < HALF_SPACE ==> Valid()
      ensures old(Fits(n)) ==> arena == old(arena)
      ensures !old(Fits(n)) ==> arena == ArenaAfter(old(arena), CoreUnits(n), top, grants)
      ensures r.Pointer? && Granted(r.p) <==> old(Fits(n)) || (n < HALF_SPACE && grants)
      ensures old(Fits(n)) ==>
        old(freep).Some? && freep.Some? && NextFit(old(free), old(freep).value, n, r.p, freep.value)
    {
      InitList();
      ghost var f, l, ar, fits := free, live, arena, Fits(n);
      r := Allocate(n, top, grants);
      if r.Pointer? {
        GrantedIff(r.p, n, top, grants, f, l, ar, fits);
      }
    }

    /**
     malloc(). The caller gets its bytes exactly if their number does not wrap, and a free block is large enough or the
     request is below 2^31 bytes and the kernel grants it. Otherwise malloc() may still return a pointer, or the header
     it writes at the old break may be its last act.
     */
    method Malloc(nbytes: nat, top: int, grants: bool) returns (r: Answer)
      requires Valid() && nbytes < UINT_LIMIT && top >= brk
      modifies this
      ensures Orderly()
      ensures r.Pointer? <==> old(Fits(Nunits(nbytes))) || CoreOk(CoreUnits(Nunits(nbytes)), top, grants)
      ensures r.Faulted? <==> !old(Fits(Nunits(nbytes))) && StoreFaults(CoreUnits(Nunits(nbytes)), top, grants)
      ensures !r.Pointer? ==> live == old(live)
      ensures r.Pointer? ==> r.p - 1 !in old(live) && live == old(live)[r.p - 1 := Nunits(nbytes)]
      ensures old(Fits(Nunits(nbytes))) || Nunits(nbytes) < HALF_SPACE ==> Valid()
      ensures old(Fits(Nunits(nbytes))) ==> arena == old(arena)
      ensures !old(Fits(Nunits(nbytes))) ==> arena == ArenaAfter(old(arena), CoreUnits(Nunits(nbytes)), top, grants)
      ensures Delivered(r, nbytes) <==>
        nbytes <= UINT_LIMIT - HEADER_BYTES && (old(Fits(Nunits(nbytes))) || (nbytes <= MAX_REQUEST && grants))
      ensures old(Fits(Nunits(nbytes))) ==>
        old(freep).Some? && freep.Some? &&
        NextFit(old(free), old(freep).value, Nunits(nbytes), r.p - 1, freep.value)
    {
      var n := Nunits(nbytes);
      var at := MallocUnits(n, top, grants);
      NunitsRoom(nbytes);
      if nbytes <= UINT_LIMIT - HEADER_BYTES {
        NunitsPositive(nbytes);
      }
      r := if at.Pointer? then Pointer(at.p + 1) else at;
    }

    /** The free units are the arena less the live ones. */
    lemma FreeIsTheRest(u: int)
      requires Valid()
      ensures Covers(free, u) <==> u in arena && !InLive(u)
    {
    }

    /** free() undoes malloc(): when no core was needed the very same list is back. */
    method MallocThenFree(nbytes: nat)
      requires Valid() && nbytes < UINT_LIMIT && Fits(Nunits(nbytes))
      modifies this
      ensures Valid() && live == old(live) && free == old(free)
    {
      ghost var f, l, ar := free, live, arena;
      forall u ensures Covers(f, u) <==> u in ar && !InMap(l, u) {
        FreeIsTheRest(u);
      }
      var r := Malloc(nbytes, brk, false);
      Free(r.p);
      assert live == l;
      forall u ensures Covers(free, u) <==> Covers(f, u) {
        FreeIsTheRest(u);
      }
      Canonical(free, f, base);
    }
  }

  /**
   On a new heap whose break lies inside a page that stays, every request above 2^31 - 16 bytes that sbrk() answers gets
   a pointer, but not its bytes.
   */
  method UngrantedRequest(base: int, brk: int, nbytes: nat, grants: bool) returns (h: Heap, r: Answer)
    requires 0 <= base < brk && MAX_REQUEST < nbytes < UINT_LIMIT
    requires Heap.CoreOk(CoreUnits(Heap.Nunits(nbytes)), brk, grants)
    ensures r.Pointer? && !h.Delivered(r, nbytes)
  {
    h := new Heap(base, brk);
    r := h.Malloc(nbytes, brk, grants);
  }

  /**
   With the break where exec() leaves it, at the end of a page, malloc() of more than 2^31 - 16 bytes ends the process,
   but for a size that wraps and for the one that would leave the process with size 0.
   */
  method FaultingRequest(base: int, brk: int, nbytes: nat, grants: bool) returns (h: Heap, r: Answer)
    requires 0 <= base < brk && brk % PAGE_UNITS == 0 && MAX_REQUEST < nbytes <= UINT_LIMIT - HEADER_BYTES
    ensures r.Faulted? <==> Heap.Nunits(nbytes) == HALF_SPACE * 2 || brk + Heap.Nunits(nbytes) != HALF_SPACE * 2
    ensures !r.Faulted? ==> r.Null?
  {
    h := new Heap(base, brk);
    r := h.Malloc(nbytes, brk, grants);
    Heap.NunitsPositive(nbytes);
  }
}

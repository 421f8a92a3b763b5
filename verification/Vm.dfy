/** kalloc.c and vm.c: the free list threaded through the free pages, and two-level page tables built in place. */
module Vm {
  import opened Common
  import opened VmState
  import opened VmSpaces
  import opened VmCost
  import opened VmCopy

  const USER_FLAGS := PTE_P + PTE_W + PTE_U

  const PGSIZE := 4096
  const KERNBASE := 0x8000_0000

  /** PGROUNDUP(sz) / PGSIZE. */
  function PageCount(sz: nat): nat {
    (sz + PGSIZE - 1) / PGSIZE
  }

  lemma PageCounts(a: nat, b: nat)
    requires a <= b <= KERNBASE
    ensures PageCount(a) <= PageCount(b) <= UPAGES
  {
  }

  function ZeroPage(): Page {
    Data(seq(4096, _ => 0))
  }

  /** The pages that allocuvm() has mapped can be read and written by the user. */
  lemma NewPagesOpen(m: Mem, s: nat, a: nat, b: nat, v: nat)
    requires Inv(m) && Zeroed(m, s, a, b, USER_FLAGS, ZeroPage()) && a <= v < b
    ensures Permits(m, s, v, PTE_W) && Permits(m, s, v, PTE_U)
  {
    assert ZeroAt(m, s, v, USER_FLAGS, ZeroPage());
    EntryDecides(m, s, v, PTE_W);
    EntryDecides(m, s, v, PTE_U);
  }

  /** Frames lo to n in the hands of the boot code. */
  ghost function AllLoose(lo: nat, n: nat): (o: map<nat, Slot>)
    ensures forall f :: f in o <==> lo <= f < n
    ensures forall f :: f in o ==> o[f] == Loose
    decreases n
  {
    if n <= lo then map[] else AllLoose(lo, n - 1)[n - 1 := Loose]
  }

  ghost function Least(a: nat, b: nat): nat {
    if a < b then a else b
  }

  /** o' is o without the frames from a to b. */
  ghost predicate Without(o: map<nat, Slot>, o': map<nat, Slot>, a: nat, b: nat) {
    && (forall f :: f in o' <==> f in o && !(a <= f < b))
    && (forall f :: f in o' ==> o'[f] == o[f])
  }

  lemma WithoutOne(o: map<nat, Slot>, o': map<nat, Slot>, a: nat, p: nat, next: nat)
    requires Without(o, o', a, p) && a <= p && next == p + 1
    ensures Without(o, o' - {p}, a, next)
  {
  }

  /** copyuvm(): the new space, 0, or the panic "page not present". */
  datatype CopyResult = Copied(root: nat) | NoMemory | Panicked

  class Memory {
    const lo: nat             // the first frame after the kernel
    const pages: array<Page>  // physical memory up to PHYSTOP
    var head: Option<nat>     // kmem.freelist
    ghost var free: seq<nat>
    ghost var owner: map<nat, Slot>

    ghost predicate Valid()
      reads this
    {
      head == Link(free, 0)
    }

    ghost function Abs(): Mem
      reads this, pages
    {
      Mem(lo, pages[..], free, owner)
    }

    // ------------------------------------------------ kalloc.c

    /** Before kinit1(): no page is free yet. */
    constructor (lo: nat, n: nat)
      ensures Valid() && Inv(Abs()) && free == [] && fresh(pages) && this.lo == lo && pages.Length == n
      ensures forall f :: f in owner <==> lo <= f < n
      ensures forall f :: f in owner ==> owner[f] == Loose
    {
      this.lo, head := lo, None;
      pages := new Page[n](_ => Junk);
      free, owner := [], AllLoose(lo, n);
    }

    method SetPage(f: nat, p: Page)
      requires f < pages.Length
      modifies pages
      ensures Abs() == WithPage(old(Abs()), f, p)
    {
      pages[f] := p;
      assert pages[..] == old(pages[..])[f := p];
    }

    /** kfree() of a page of the pool. */
    method Kfree(f: nat)
      requires Valid() && lo <= f < pages.Length
      modifies this, pages
      ensures Valid() && Abs() == Give(old(Abs()), f)
    {
      SetPage(f, Run(head));
      head := Some(f);
      free, owner := [f] + free, owner - {f};
    }

    /** kfree() by a caller who holds the page. */
    method Release(f: nat)
      requires Valid() && Inv(Abs()) && Owns(Abs(), f, Loose)
      modifies this, pages
      ensures Valid() && f < |old(Abs()).pages| && Abs() == Give(old(Abs()), f) && Inv(Abs()) &&
              SameView(old(Abs()), Abs())
    {
      ghost var m := Abs();
      assert InPool(m, f);
      Kfree(f);
      GiveKeeps(m, f, Abs());
    }

    /** freerange(): the pages from a to b go to the free list. */
    method FreeRange(a: nat, b: nat)
      requires Valid() && Inv(Abs()) && lo <= a <= b <= pages.Length && forall f :: a <= f < b ==> Owns(Abs(), f, Loose)
      modifies this, pages
      ensures Valid() && Inv(Abs()) && Without(old(owner), owner, a, b)
    {
      var p := a;
      while p < b
        invariant a <= p <= b && Valid() && Inv(Abs()) && Without(old(owner), owner, a, p)
      {
        assert Owns(old(Abs()), p, Loose);
        ghost var o := owner;
        Release(p);
        var next := p + 1;
        WithoutOne(old(owner), o, a, p, next);
        p := next;
      }
    }

    /** kalloc(): None if there is no free page. */
    method Kalloc() returns (r: Option<nat>)
      requires Valid() && Inv(Abs())
      modifies this
      ensures Valid() && (r.None? <==> old(free) == [])
      ensures r.None? ==> Abs() == old(Abs())
      ensures r.Some? ==> r.value == old(free[0]) && lo <= r.value < pages.Length && r.value !in old(owner)
      ensures r.Some? ==> Abs() == Take(old(Abs())) && Inv(Abs()) && SameView(old(Abs()), Abs())
    {
      ghost var m := Abs();
      r := head;
      if r.Some? {
        assert LinkAt(m.pages, m.free, 0);
        head := pages[r.value].next;
        owner := owner[free[0] := Loose];
        free := free[1..];
        TakeKeeps(m, Abs());
      }
    }

    // ------------------------------------------------ page tables

    /** walkpgdir() without alloc: the frame of the table for page v. */
    method Walk(s: nat, v: nat) returns (r: Option<nat>)
      requires Inv(Abs()) && IsRoot(Abs(), s) && v < VPAGES
      ensures r.None? <==> Pde(Abs(), s, v / ENTRIES) == Absent
      ensures r.Some? ==> PteAt(Abs(), s, v, r.value, v % ENTRIES)
    {
      var e := pages[s].entries[v / ENTRIES];
      if e.Absent? {
        return None;
      }
      WalkedHere(Abs(), s, v, e.frame);
      return Some(e.frame);
    }

    /** walkpgdir() with alloc: None if a table is needed and there is no page for it. */
    method WalkAlloc(s: nat, v: nat) returns (r: Option<nat>)
      requires Valid() && Inv(Abs()) && IsRoot(Abs(), s) && v < VPAGES
      modifies this, pages
      ensures Valid() && (r.None? <==> NoTable(old(Abs()), s, v)) && (r.None? ==> Abs() == old(Abs()))
      ensures r.Some? ==> Walked(old(Abs()), Abs(), s, v, r.value) && TableCost(old(Abs()), Abs(), s, v)
    {
      ghost var m := Abs();
      r := Walk(s, v);
      if r.Some? {
        WalkedHere(m, s, v, r.value);
        NoTableCost(m, s, v);
        return;
      }
      r := Kalloc();
      if r.None? {
        return;
      }
      var f, d := r.value, v / ENTRIES;
      ghost var m1 := Abs();
      SetPage(f, EmptyTable());
      SetPage(s, Table(pages[s].entries[d := Present(f, PDE_FLAGS)]));
      owner := owner[f := TableOf(s, d)];
      WalkedNew(m, m1, s, v, d, f, PDE_FLAGS, Abs());
      NewTableCost(m, m1, s, v, d, f, PDE_FLAGS, Abs());
    }

    /** mappages() of one user page, for a page the caller holds; false if there is no page for a table. */
    method MapUser(s: nat, v: nat, f: nat, flags: nat) returns (ok: bool)
      requires Valid() && Inv(Abs()) && IsRoot(Abs(), s) && v < UPAGES && Pte(Abs(), s, v) == Absent &&
               Owns(Abs(), f, Loose)
      modifies this, pages
      ensures Valid() && (ok <==> !NoTable(old(Abs()), s, v)) && (!ok ==> Abs() == old(Abs()))
      ensures ok ==> MapsPage(old(Abs()), Abs(), s, v, f, flags) && TableCost(old(Abs()), Abs(), s, v)
    {
      ghost var m := Abs();
      assert InPool(m, f);
      var tf := WalkAlloc(s, v);
      if tf.None? {
        return false;
      }
      ghost var m1 := Abs();
      var t := v % ENTRIES;
      SetPage(tf.value, Table(pages[tf.value].entries[t := Present(f, flags)]));
      ghost var m2 := Abs();
      owner := owner[f := PageOf(s, v)];
      WalkThenMap(m, m1, s, v, tf.value, t, f, flags, m2, Abs());
      WriteCost(m, m1, s, v, tf.value, t, pages[tf.value], m2, Abs());
      return true;
    }

    /** The entry is in a table, so writing it costs nothing. */
    static lemma WriteCost(m: Mem, m1: Mem, s: nat, v: nat, tf: nat, t: nat, p: Page, m2: Mem, m': Mem)
      requires TableCost(m, m1, s, v) && Inv(m1) && PteAt(m1, s, v, tf, t) && IsRoot(m', s)
      requires m2 == WithPage(m1, tf, p) && m' == m2.(owner := m'.owner)
      ensures TableCost(m, m', s, v)
    {
      assert RootOk(m1, s);
      assert Owns(m1, tf, TableOf(s, v / ENTRIES));
      SameTables(m1, m', s);
    }

    /** clearpteu() of a user page; false is its panic. The user can no longer use the page; nothing else changes. */
    method ClearPteU(s: nat, v: nat) returns (ok: bool)
      requires Valid() && Inv(Abs()) && IsRoot(Abs(), s) && v < UPAGES
      modifies pages
      ensures Valid() && Inv(Abs()) && (ok <==> old(Pde(Abs(), s, v / ENTRIES)).Present?)
      ensures !ok || old(Pte(Abs(), s, v)) == Absent ==> Abs() == old(Abs())
      ensures IsRoot(Abs(), s) && !Permits(Abs(), s, v, PTE_U) && SameBut(old(Abs()), Abs(), s, v)
      ensures old(Pte(Abs(), s, v)).Present? ==>
        Pte(Abs(), s, v) == Present(old(Pte(Abs(), s, v)).frame, WithoutUser(old(Pte(Abs(), s, v)).flags))
    {
      ghost var m := Abs();
      var tf := Walk(s, v);
      if tf.None? {
        return false;
      }
      var t := v % ENTRIES;
      var e := pages[tf.value].entries[t];
      if e.Present? {
        var e' := Present(e.frame, WithoutUser(e.flags));
        SetPage(tf.value, Table(pages[tf.value].entries[t := e']));
        GuardKeeps(m, s, v, tf.value, t, e.frame, e', Abs());
      }
      return true;
    }

    // ------------------------------------------------ deallocuvm() and freevm()

    /** kfree() and *pte = 0 for a mapped page. */
    method UnmapPresent(s: nat, ghost mm: Mem, ghost m0: Mem, ghost a: nat, ghost k: nat, ghost next: nat, tf: nat,
                        t: nat, f: nat)
      requires Valid() && Unmapped(m0, Abs(), s, a, k) && a <= k < UPAGES && next == k + 1
      requires PteAt(Abs(), s, k, tf, t) && Pte(Abs(), s, k).Present? && f == Pte(Abs(), s, k).frame
      requires UserPagesKept(mm, Abs())
      modifies this, pages
      ensures UserPagesKept(mm, Abs())
      ensures Valid() && Unmapped(m0, Abs(), s, a, next)
    {
      ghost var m := Abs();
      FrameOfPage(m, s, k, tf, f);
      Kfree(f);
      ghost var m1 := Abs();
      GiveKeepsPages(mm, m, f, m1);
      SetPage(tf, Table(pages[tf].entries[t := Absent]));
      assert Owns(m, tf, TableOf(s, k / ENTRIES));
      TableKeepsPages(mm, m1, tf, pages[tf], Abs());
      UnmapOne(m0, m, s, a, k, next, tf, t, f, m1, Abs());
    }

    /** One round of deallocuvm()'s loop at page k: the next page to look at, past the whole table if there is none. */
    method UnmapPage(s: nat, ghost mm: Mem, ghost m0: Mem, ghost a: nat, k: nat, b: nat) returns (next: nat)
      requires Valid() && Unmapped(m0, Abs(), s, a, k) && a <= k < b <= UPAGES
      requires UserPagesKept(mm, Abs())
      modifies this, pages
      ensures UserPagesKept(mm, Abs())
      ensures Valid() && k < next && Unmapped(m0, Abs(), s, a, Least(next, b))
    {
      ghost var m := Abs();
      var tf := Walk(s, k);
      if tf.None? {
        next := (k / ENTRIES + 1) * ENTRIES;
        UnmapSkips(m0, m, s, a, k, next, b);
        return;
      }
      next := k + 1;
      var t := k % ENTRIES;
      var e := pages[tf.value].entries[t];
      if e.Absent? {
        UnmapAbsent(m0, m, s, a, k, next);
      } else {
        UnmapPresent(s, mm, m0, a, k, next, tf.value, t, e.frame);
      }
    }

    static lemma SkipsTable(m: Mem, s: nat, k: nat, next: nat)
      requires IsRoot(m, s) && k < UPAGES && next == (k / ENTRIES + 1) * ENTRIES && Pde(m, s, k / ENTRIES) == Absent
      ensures k < next <= UPAGES && forall v :: k <= v < next ==> Pte(m, s, v) == Absent
    {
      forall v | k <= v < next ensures Pte(m, s, v) == Absent {
        assert v / ENTRIES == k / ENTRIES;
      }
    }

    static lemma UnmapAbsent(m0: Mem, m: Mem, s: nat, a: nat, k: nat, next: nat)
      requires Unmapped(m0, m, s, a, k) && a <= k < UPAGES && next == k + 1 && Pte(m, s, k) == Absent
      ensures Unmapped(m0, m, s, a, next)
    {
      UnmapNone(m0, m, s, a, k, next);
    }

    static lemma UnmapSkips(m0: Mem, m: Mem, s: nat, a: nat, k: nat, next: nat, b: nat)
      requires Unmapped(m0, m, s, a, k) && a <= k < b <= UPAGES && next == (k / ENTRIES + 1) * ENTRIES &&
               Pde(m, s, k / ENTRIES) == Absent
      ensures k < next && Unmapped(m0, m, s, a, Least(next, b))
    {
      SkipsTable(m, s, k, next);
      var stop := Least(next, b);
      UnmapNone(m0, m, s, a, k, stop);
    }

    static lemma FrameOfPage(m: Mem, s: nat, k: nat, tf: nat, f: nat)
      requires Inv(m) && k < UPAGES && PteAt(m, s, k, tf, k % ENTRIES) && Pte(m, s, k).Present? &&
               f == Pte(m, s, k).frame
      ensures m.lo <= f < |m.pages| && f != tf
    {
      assert RootOk(m, s);
      assert Owns(m, f, PageOf(s, k)) && Owns(m, tf, TableOf(s, k / ENTRIES));
      assert InPool(m, f);
    }

    /** deallocuvm() for the pages from a to b: they are unmapped, and exactly their frames are free. */
    method DeallocUvm(s: nat, a: nat, b: nat)
      requires Valid() && Inv(Abs()) && IsRoot(Abs(), s) && a <= b <= UPAGES
      modifies this, pages
      ensures Valid() && Unmapped(old(Abs()), Abs(), s, a, b) && UserPagesKept(old(Abs()), Abs())
    {
      ghost var m0 := Abs();
      UnmapStarts(m0, s, a);
      KeptStarts(m0);
      var k := a;
      while k < b
        invariant a <= k && Valid() && Unmapped(m0, Abs(), s, a, Least(k, b)) && UserPagesKept(m0, Abs())
      {
        k := UnmapPage(s, m0, m0, a, k, b);
      }
    }

    /** deallocuvm(), by size: newsz, or oldsz if that is not larger. */
    method DeallocUvmSize(s: nat, oldsz: nat, newsz: nat) returns (r: nat)
      requires Valid() && Inv(Abs()) && IsRoot(Abs(), s) && oldsz <= KERNBASE
      modifies this, pages
      ensures Valid() && UserPagesKept(old(Abs()), Abs()) && r == if newsz >= oldsz then oldsz else newsz
      ensures newsz >= oldsz ==> Abs() == old(Abs())
      ensures newsz < oldsz ==> Unmapped(old(Abs()), Abs(), s, PageCount(newsz), PageCount(oldsz))
    {
      KeptStarts(Abs());
      if newsz >= oldsz {
        return oldsz;
      }
      PageCounts(newsz, oldsz);
      var a, b := PageCount(newsz), PageCount(oldsz);
      DeallocUvm(s, a, b);
      return newsz;
    }

    /** freevm()'s loop over the directory. */
    method DropTables(s: nat, ghost mm: Mem, ghost m0: Mem)
      requires Valid() && Dropping(m0, Abs(), s, 0)
      requires UserPagesKept(mm, Abs())
      modifies this, pages
      ensures UserPagesKept(mm, Abs())
      ensures Valid() && Dropping(m0, Abs(), s, ENTRIES)
    {
      var k := 0;
      while k < ENTRIES
        invariant k <= ENTRIES && Valid() && Dropping(m0, Abs(), s, k) && UserPagesKept(mm, Abs())
      {
        var next := k + 1;
        DropEntry(s, mm, m0, k, next);
        k := next;
      }
    }

    method DropEntry(s: nat, ghost mm: Mem, ghost m0: Mem, k: nat, ghost next: nat)
      requires Valid() && Dropping(m0, Abs(), s, k) && k < ENTRIES && next == k + 1
      requires UserPagesKept(mm, Abs())
      modifies this, pages
      ensures UserPagesKept(mm, Abs())
      ensures Valid() && Dropping(m0, Abs(), s, next)
    {
      ghost var m := Abs();
      assert SlotOk(m0, s);
      var e := pages[s].entries[k];
      if e.Present? {
        TableInPool(m0, s, k, e.frame);
        Kfree(e.frame);
        GiveKeepsPages(mm, m, e.frame, Abs());
        DropOne(m0, m, s, k, next, e.frame, Abs());
      } else {
        DropNone(m0, m, s, k, next);
      }
    }

    static lemma TableInPool(m: Mem, s: nat, d: nat, f: nat)
      requires Inv(m) && IsRoot(m, s) && d < ENTRIES && Pde(m, s, d).Present? && f == Pde(m, s, d).frame
      ensures m.lo <= f < |m.pages|
    {
      assert RootOk(m, s);
      assert Owns(m, f, TableOf(s, d));
      assert InPool(m, f);
    }

    /** freevm(): every user page, every table and the directory of s are free again, and nothing else has changed. */
    method FreeVm(s: nat)
      requires Valid() && Inv(Abs()) && IsRoot(Abs(), s)
      modifies this, pages
      ensures Valid() && Freed(old(Abs()), Abs(), s) && UserPagesKept(old(Abs()), Abs())
    {
      ghost var m0 := Abs();
      DeallocUvm(s, 0, UPAGES);
      ghost var m1 := Abs();
      UnmappedAll(m0, m1, s);
      owner := Remaining(owner, s, 0);
      DropStarts(m1, s, Abs());
      DetachKeepsPages(m0, m1, s, Abs());
      DropTables(s, m0, m1);
      ghost var m2 := Abs();
      assert InPool(m1, s);
      Kfree(s);
      GiveKeepsPages(m0, m2, s, Abs());
      DropDone(m1, m2, s, Abs());
      UnmappedThenFreed(m0, m1, Abs(), s);
    }

    // ------------------------------------------------ allocuvm()

    /** One round of allocuvm()'s loop: a zeroed page at k. On failure, x is a page that could not be mapped. */
    method GrowPage(s: nat, ghost m0: Mem, ghost a: nat, k: nat, ghost next: nat, ghost b: nat, ghost none: nat)
      returns (ok: bool, x: Option<nat>)
      requires Valid() && Grown(m0, Abs(), s, a, k, none) && none >= pages.Length && a <= k < b <= UPAGES &&
               next == k + 1
      requires Pte(m0, s, k) == Absent && UserPagesKept(m0, Abs()) && Zeroed(Abs(), s, a, k, USER_FLAGS, ZeroPage())
      requires GrowOwed(m0, Abs(), s, a, b, k)
      modifies this, pages
      ensures if ok then GrowOwed(m0, Abs(), s, a, b, next) else |m0.free| < GrowCost(m0, s, a, b)
      ensures UserPagesKept(m0, Abs()) && (ok ==> Zeroed(Abs(), s, a, next, USER_FLAGS, ZeroPage()))
      ensures Valid() && (ok ==> Grown(m0, Abs(), s, a, next, none))
      ensures !ok && x.None? ==> Grown(m0, Abs(), s, a, k, none)
      ensures !ok && x.Some? ==>
        Grown(m0, Abs(), s, a, k, x.value) && Owns(Abs(), x.value, Loose) && x.value !in m0.owner
    {
      ghost var m := Abs();
      x := Kalloc();
      if x.None? {
        GrowShortOfPage(m0, m, s, a, b, k);
        return false, None;
      }
      var f := x.value;
      ghost var m1 := Abs();
      SetPage(f, ZeroPage());
      GrowOwedPage(m0, m, s, a, b, k, next, f, ZeroPage(), m1, Abs());
      GrowTakes(m0, m, s, a, k, none, f, ZeroPage(), m1, Abs());
      TakeKeepsPages(m0, m, f, ZeroPage(), m1, Abs());
      ZeroTake(m, s, a, k, USER_FLAGS, ZeroPage(), f, ZeroPage(), m1, Abs());
      ok := MapZeroed(s, m0, a, k, next, b, none, f);
    }

    /** mappages() of the zeroed page in frame f at k. */
    method MapZeroed(s: nat, ghost m0: Mem, ghost a: nat, k: nat, ghost next: nat, ghost b: nat, ghost none: nat,
                     f: nat)
      returns (ok: bool)
      requires Valid() && Grown(m0, Abs(), s, a, k, f) && Owns(Abs(), f, Loose) && f !in m0.owner && f < pages.Length
      requires a <= k < b <= UPAGES && next == k + 1 && Pte(m0, s, k) == Absent && UserPagesKept(m0, Abs())
      requires Zeroed(Abs(), s, a, k, USER_FLAGS, ZeroPage()) && pages[f] == ZeroPage()
      requires GrowOwed(m0, Abs(), s, a, b, next)
      modifies this, pages
      ensures if ok then GrowOwed(m0, Abs(), s, a, b, next) else |m0.free| < GrowCost(m0, s, a, b)
      ensures Valid() && UserPagesKept(m0, Abs()) && (!ok ==> Abs() == old(Abs()))
      ensures ok ==> Zeroed(Abs(), s, a, next, USER_FLAGS, ZeroPage()) && Grown(m0, Abs(), s, a, next, none)
    {
      ghost var m2 := Abs();
      ok := MapUser(s, k, f, USER_FLAGS);
      if ok {
        MapKeepsPages(m0, m2, Abs(), s, k, f, USER_FLAGS);
        ZeroMap(m2, Abs(), s, a, k, next, USER_FLAGS, ZeroPage(), f);
        GrowMaps(m0, m2, s, a, k, next, f, USER_FLAGS, Abs(), none);
        GrowOwedMore(m0, m2, Abs(), s, a, b, k, next);
      } else {
        GrowShortOfTable(m0, m2, s, a, b, k, next);
      }
    }

    /**
     allocuvm() for the pages from a to b, none of which is mapped: all of them are mapped, or none is, exactly if there
     are fewer free pages than they and their missing tables need.
     */
    method AllocUvm(s: nat, a: nat, b: nat) returns (ok: bool)
      requires Valid() && Inv(Abs()) && IsRoot(Abs(), s) && a <= b <= UPAGES
      requires forall v :: a <= v < b ==> Pte(Abs(), s, v) == Absent
      modifies this, pages
      ensures Valid() && UserPagesKept(old(Abs()), Abs()) && (ok <==> |old(free)| >= GrowCost(old(Abs()), s, a, b))
      ensures ok ==> Grown(old(Abs()), Abs(), s, a, b, pages.Length) && Zeroed(Abs(), s, a, b, USER_FLAGS, ZeroPage())
      ensures !ok ==> RolledBack(old(Abs()), Abs(), s)
    {
      ghost var m0, none := Abs(), pages.Length;
      GrowStarts(m0, s, a, none);
      KeptStarts(m0);
      GrowOwedStarts(m0, s, a, b);
      var k := a;
      while k < b
        invariant a <= k <= b && Valid() && Grown(m0, Abs(), s, a, k, none) && GrowOwed(m0, Abs(), s, a, b, k)
        invariant UserPagesKept(m0, Abs()) && Zeroed(Abs(), s, a, k, USER_FLAGS, ZeroPage())
      {
        var next := k + 1;
        var x;
        ok, x := GrowPage(s, m0, a, k, next, b, none);
        if !ok {
          Rollback(s, m0, a, k, b, none, x);
          return;
        }
        k := next;
      }
      GrowPaid(m0, Abs(), s, a, b, none);
      return true;
    }

    /** allocuvm(), by size: newsz, oldsz if that is larger, or 0. */
    method AllocUvmSize(s: nat, oldsz: nat, newsz: nat) returns (r: nat)
      requires Valid() && Inv(Abs()) && IsRoot(Abs(), s)
      requires forall v :: PageCount(oldsz) <= v < UPAGES ==> Pte(Abs(), s, v) == Absent
      modifies this, pages
      ensures Valid() && UserPagesKept(old(Abs()), Abs())
      ensures newsz < oldsz && newsz < KERNBASE ==> r == oldsz && Abs() == old(Abs())
      ensures newsz >= KERNBASE ==> r == 0 && Abs() == old(Abs())
      ensures oldsz <= newsz < KERNBASE ==>
        r == if |old(free)| >= GrowCost(old(Abs()), s, PageCount(oldsz), PageCount(newsz)) then newsz else 0
      ensures oldsz <= newsz < KERNBASE && r == newsz != 0 ==>
        && Grown(old(Abs()), Abs(), s, PageCount(oldsz), PageCount(newsz), pages.Length)
        && Zeroed(Abs(), s, PageCount(oldsz), PageCount(newsz), USER_FLAGS, ZeroPage())
      ensures oldsz <= newsz < KERNBASE && r != newsz ==> RolledBack(old(Abs()), Abs(), s)
    {
      KeptStarts(Abs());
      if newsz >= KERNBASE {
        return 0;
      }
      if newsz < oldsz {
        return oldsz;
      }
      PageCounts(oldsz, newsz);
      var a, b := PageCount(oldsz), PageCount(newsz);
      var ok := AllocUvm(s, a, b);
      return if ok then newsz else 0;
    }

    method Rollback(s: nat, ghost m0: Mem, a: nat, ghost k: nat, b: nat, ghost none: nat, x: Option<nat>)
      requires Valid() && a <= k <= b <= UPAGES && none >= pages.Length && Inv(Abs())
      requires x.None? ==> Grown(m0, Abs(), s, a, k, none)
      requires x.Some? ==> Grown(m0, Abs(), s, a, k, x.value) && Owns(Abs(), x.value, Loose) && x.value !in m0.owner
      requires IsRoot(m0, s) && (forall v :: a <= v < b ==> Pte(m0, s, v) == Absent) && UserPagesKept(m0, Abs())
      modifies this, pages
      ensures Valid() && RolledBack(m0, Abs(), s) && UserPagesKept(m0, Abs())
    {
      ghost var m := Abs();
      DeallocUvm(s, a, b);
      UnmapKeepsPages(m0, m, Abs(), s, a, b);
      if x.Some? {
        ghost var m1 := Abs();
        assert InPool(m, x.value);
        Kfree(x.value);
        GiveKeepsPages(m0, m1, x.value, Abs());
        GrowRolledBackWith(m0, m, s, a, k, b, x.value, m1, Abs());
      } else {
        GrowRolledBack(m0, m, s, a, k, b, none, Abs());
      }
    }

    // ------------------------------------------------ setupkvm() and copyuvm()

    /** mappages() of one kernel page; false if there is no page for a table. */
    method MapKernel(s: nat, v: nat, e: Entry) returns (ok: bool)
      requires Valid() && Inv(Abs()) && IsRoot(Abs(), s) && UPAGES <= v < VPAGES && Pte(Abs(), s, v) == Absent
      modifies this, pages
      ensures Valid() && (ok <==> !NoTable(old(Abs()), s, v)) && (!ok ==> Abs() == old(Abs()))
      ensures ok ==> Inv(Abs()) && SameBut(old(Abs()), Abs(), s, v) && IsRoot(Abs(), s) && Pte(Abs(), s, v) == e
      ensures ok ==> TablesGrew(old(Abs()), Abs(), s) && TableCost(old(Abs()), Abs(), s, v)
    {
      ghost var m := Abs();
      var tf := WalkAlloc(s, v);
      if tf.None? {
        return false;
      }
      ghost var m1 := Abs();
      var t := v % ENTRIES;
      SetPage(tf.value, Table(pages[tf.value].entries[t := e]));
      WalkThenKernel(m, m1, s, v, tf.value, t, e, Abs());
      WriteCost(m, m1, s, v, tf.value, t, pages[tf.value], Abs(), Abs());
      return true;
    }

    /** mappages() of range i of kmap[]. */
    method MapRange(d: nat, ghost m0: Mem, kmap: seq<Range>, i: nat) returns (ok: bool)
      requires Valid() && KmapOk(kmap) && i < |kmap| && Laid(m0, Abs(), d, kmap, i, 0) && KvmOwed(m0, Abs(), d, kmap)
      modifies this, pages
      ensures Valid() && Fresh(m0, Abs(), d) && (!ok ==> |m0.free| < Need(kmap, 0))
      ensures ok ==> Laid(m0, Abs(), d, kmap, i, kmap[i].n) && KvmOwed(m0, Abs(), d, kmap)
    {
      var j := 0;
      while j < kmap[i].n
        invariant j <= kmap[i].n && Valid() && Laid(m0, Abs(), d, kmap, i, j) && KvmOwed(m0, Abs(), d, kmap)
      {
        ghost var m := Abs();
        var v, next := kmap[i].v + j, j + 1;
        NotRemapped(m0, m, d, kmap, i, j, v);
        ok := MapKernel(d, v, RangeEntry(kmap[i], v));
        if !ok {
          KvmShort(m0, m, d, kmap, i, v);
          return;
        }
        KvmMore(m0, m, Abs(), d, kmap, i, v);
        LayOne(m0, m, d, kmap, i, j, next, v, Abs());
        j := next;
      }
      return true;
    }

    /** All ranges of kmap[]. */
    method MapRanges(d: nat, ghost m0: Mem, kmap: seq<Range>) returns (ok: bool)
      requires Valid() && KmapOk(kmap) && Laid(m0, Abs(), d, kmap, 0, 0) && KvmOwed(m0, Abs(), d, kmap)
      modifies this, pages
      ensures Valid() && Fresh(m0, Abs(), d) && (!ok ==> |m0.free| < Need(kmap, 0))
      ensures ok ==> Laid(m0, Abs(), d, kmap, |kmap|, 0) && KvmOwed(m0, Abs(), d, kmap)
    {
      var i := 0;
      while i < |kmap|
        invariant i <= |kmap| && Valid() && Laid(m0, Abs(), d, kmap, i, 0) && KvmOwed(m0, Abs(), d, kmap)
      {
        ok := MapRange(d, m0, kmap, i);
        if !ok {
          return;
        }
        var next := i + 1;
        LayRange(m0, Abs(), d, kmap, i, next);
        i := next;
      }
      return true;
    }

    /** setupkvm(): a space with exactly the kernel's mappings; nothing at all exactly if there are too few pages. */
    method SetupKvm(kmap: seq<Range>) returns (r: Option<nat>)
      requires Valid() && Inv(Abs()) && KmapOk(kmap)
      modifies this, pages
      ensures Valid() && (r.None? <==> |old(free)| < Need(kmap, 0))
      ensures r.Some? ==> Laid(old(Abs()), Abs(), r.value, kmap, |kmap|, 0) && KvmOwed(old(Abs()), Abs(), r.value, kmap)
      ensures r.None? ==> Undone(old(Abs()), Abs())
    {
      ghost var m0 := Abs();
      NeedOfNone(kmap, 0);
      r := Kalloc();
      if r.None? {
        NothingUndone(m0);
        return;
      }
      var d := r.value;
      ghost var m1 := Abs();
      SetPage(d, EmptyTable());
      owner := owner[d := Root];
      FreshRoot(m0, m1, d, Abs());
      RootOwed(m0, m1, d, Abs(), kmap);
      r := LayKernel(d, m0, kmap);
    }

    /** setupkvm() once it has a directory. */
    method LayKernel(d: nat, ghost m0: Mem, kmap: seq<Range>) returns (r: Option<nat>)
      requires Valid() && KmapOk(kmap) && Laid(m0, Abs(), d, kmap, 0, 0) && KvmOwed(m0, Abs(), d, kmap)
      modifies this, pages
      ensures Valid() && (r.None? <==> |m0.free| < Need(kmap, 0)) && (r.Some? ==> r.value == d)
      ensures r.Some? ==> Laid(m0, Abs(), d, kmap, |kmap|, 0) && KvmOwed(m0, Abs(), d, kmap)
      ensures r.None? ==> Undone(m0, Abs())
    {
      var ok := MapRanges(d, m0, kmap);
      if !ok {
        Abolish(d, m0);
        return None;
      }
      KvmPaid(m0, Abs(), d, kmap);
      return Some(d);
    }

    /** freevm() of a space under construction. */
    method Abolish(d: nat, ghost m0: Mem)
      requires Valid() && Fresh(m0, Abs(), d)
      modifies this, pages
      ensures Valid() && Undone(m0, Abs())
    {
      ghost var m := Abs();
      FreeVm(d);
      FreshUndone(m0, m, d, Abs());
    }

    /** One round of copyuvm()'s loop. */
    method CopyPage(s: nat, d: nat, ghost m0: Mem, ghost kmap: seq<Range>, ghost n: nat, k: nat, ghost next: nat)
      returns (ok: bool)
      requires Valid() && KmapOk(kmap) && Copying(m0, Abs(), s, d, kmap, k) && k < n <= UPAGES && next == k + 1 &&
               Pte(m0, s, k).Present?
      requires CopyOwed(m0, Abs(), d, kmap, n, k)
      modifies this, pages
      ensures Valid() && Fresh(m0, Abs(), d) && (!ok ==> |m0.free| < Need(kmap, n))
      ensures ok ==> Copying(m0, Abs(), s, d, kmap, next) && CopyOwed(m0, Abs(), d, kmap, n, next)
    {
      ghost var m := Abs();
      ParentSame(m0, m, s, d, k);
      var tf := Walk(s, k);
      var e := pages[tf.value].entries[k % ENTRIES];
      var x := Kalloc();
      if x.None? {
        CopyShortOfPage(m0, m, d, kmap, n, k);
        return false;
      }
      var f := x.value;
      ghost var m1 := Abs();
      var p := pages[e.frame];
      SetPage(f, p);
      CopyOwedPage(m0, m, d, kmap, n, k, next, f, p, m1, Abs());
      ok := MapCopy(s, d, m0, kmap, n, k, next, f, e, p, m, m1);
    }

    /** mappages() of the copy p of page k, in frame f. */
    method MapCopy(ghost s: nat, d: nat, ghost m0: Mem, ghost kmap: seq<Range>, ghost n: nat, k: nat, ghost next: nat,
                   f: nat, e: Entry, ghost p: Page, ghost m: Mem, ghost m1: Mem)
      returns (ok: bool)
      requires Valid() && KmapOk(kmap) && Copying(m0, m, s, d, kmap, k) && k < n <= UPAGES && next == k + 1
      requires e == Pte(m0, s, k) && e.Present? && e.frame < |m0.pages| && p == m0.pages[e.frame]
      requires m.free != [] && f == m.free[0] && f < |m.pages| && m1 == Take(m) && Abs() == WithPage(m1, f, p)
      requires CopyOwed(m0, Abs(), d, kmap, n, next)
      modifies this, pages
      ensures Valid() && Fresh(m0, Abs(), d) && (!ok ==> |m0.free| < Need(kmap, n))
      ensures ok ==> Copying(m0, Abs(), s, d, kmap, next) && CopyOwed(m0, Abs(), d, kmap, n, next)
    {
      ghost var m2 := Abs();
      CopyTakes(m0, m, d, f, p, m1, m2);
      NoKernelEntry(kmap, k);
      assert Pte(m2, d, k) == Pte(m, d, k) == Absent;
      ok := MapUser(d, k, f, e.flags);
      if ok {
        CopyOne(m0, m, s, d, kmap, k, next, f, e, p, m1, m2, Abs());
        CopyOwedMore(m0, m2, Abs(), d, kmap, n, k, next);
      } else {
        CopyShortOfTable(m0, m2, d, kmap, n, k, next);
        Kfree(f);
        CopyGivesUp(m0, m, d, f, p, m1, m2, Abs());
      }
    }

    /** Page k of the parent, as it was in m0, is mapped. */
    method PageThere(s: nat, ghost d: nat, ghost m0: Mem, k: nat) returns (there: bool)
      requires Fresh(m0, Abs(), d) && IsRoot(m0, s) && k < UPAGES
      ensures there <==> Pte(m0, s, k).Present?
    {
      StillRoot(m0, Abs(), d, s, k);
      var tf := Walk(s, k);
      return tf.Some? && pages[tf.value].entries[k % ENTRIES].Present?;
    }

    static lemma StillRoot(m0: Mem, m: Mem, d: nat, s: nat, k: nat)
      requires Fresh(m0, m, d) && IsRoot(m0, s) && k < UPAGES
      ensures IsRoot(m, s) && Pte(m, s, k) == Pte(m0, s, k)
    {
      assert s != d;
    }

    /**
     copyuvm() of n pages: a full copy if all of them are mapped in s and there are as many free pages as the new space
     needs; a panic at the first hole if there are enough to get there; otherwise 0, and nothing has happened.
     */
    method CopyUvm(s: nat, n: nat, kmap: seq<Range>) returns (r: CopyResult)
      requires Valid() && Inv(Abs()) && IsRoot(Abs(), s) && n <= UPAGES && KmapOk(kmap)
      modifies this, pages
      ensures Valid() && (r.NoMemory? <==> |old(free)| < Need(kmap, FirstHole(old(Abs()), s, n)))
      ensures r.Panicked? <==> !r.NoMemory? && exists v :: 0 <= v < n && old(Pte(Abs(), s, v)) == Absent
      ensures r.Copied? ==> Copying(old(Abs()), Abs(), s, r.root, kmap, n)
      ensures r.NoMemory? ==> Undone(old(Abs()), Abs())
    {
      ghost var m0, top := Abs(), FirstHole(Abs(), s, n);
      NeedOfNone(kmap, top);
      var d := SetupKvm(kmap);
      if d.None? {
        return NoMemory;
      }
      CopyStarts(m0, Abs(), s, d.value, kmap);
      CopyOwedStarts(m0, Abs(), d.value, kmap, top);
      r := CopyPages(s, d.value, m0, kmap, n, top);
      if r.NoMemory? {
        Abolish(d.value, m0);
      }
    }

    /** The body of copyuvm()'s loop; None is to go on. */
    method CopyNext(s: nat, d: nat, ghost m0: Mem, ghost kmap: seq<Range>, ghost n: nat, ghost top: nat, k: nat,
                    ghost next: nat)
      returns (stop: Option<CopyResult>)
      requires Valid() && KmapOk(kmap) && k < n <= UPAGES && IsRoot(m0, s) && top == FirstHole(m0, s, n) && k <= top
      requires Copying(m0, Abs(), s, d, kmap, k) && CopyOwed(m0, Abs(), d, kmap, top, k) && next == k + 1
      modifies this, pages
      ensures Valid() && Fresh(m0, Abs(), d)
      ensures stop.None? ==> next <= top && Copying(m0, Abs(), s, d, kmap, next)
      ensures stop.None? ==> CopyOwed(m0, Abs(), d, kmap, top, next)
      ensures stop.Some? ==> stop.value == if |m0.free| < Need(kmap, top) then NoMemory else Panicked
      ensures stop == Some(Panicked) ==> top < n
    {
      var there := PageThere(s, d, m0, k);
      if !there {
        CopyPaid(m0, Abs(), s, d, kmap, top);
        return Some(Panicked);
      }
      var ok := CopyPage(s, d, m0, kmap, top, k, next);
      return if ok then None else Some(NoMemory);
    }

    /** copyuvm()'s loop; `top` is where it will find the first page that is not mapped. */
    method CopyPages(s: nat, d: nat, ghost m0: Mem, ghost kmap: seq<Range>, n: nat, ghost top: nat)
      returns (r: CopyResult)
      requires Valid() && KmapOk(kmap) && n <= UPAGES && IsRoot(m0, s) && top == FirstHole(m0, s, n)
      requires Copying(m0, Abs(), s, d, kmap, 0) && CopyOwed(m0, Abs(), d, kmap, top, 0)
      modifies this, pages
      ensures Valid() && Fresh(m0, Abs(), d) && (r.NoMemory? <==> |m0.free| < Need(kmap, top))
      ensures !r.NoMemory? ==> (r.Panicked? <==> top < n)
      ensures r.Copied? ==> r.root == d && Copying(m0, Abs(), s, d, kmap, n)
    {
      var k := 0;
      while k < n
        invariant k <= top && Valid() && Copying(m0, Abs(), s, d, kmap, k) && CopyOwed(m0, Abs(), d, kmap, top, k)
      {
        var next := k + 1;
        var stop := CopyNext(s, d, m0, kmap, n, top, k, next);
        if stop.Some? {
          return stop.value;
        }
        k := next;
      }
      CopyPaid(m0, Abs(), s, d, kmap, top);
      return Copied(d);
    }
  }
}

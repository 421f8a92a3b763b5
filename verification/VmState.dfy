/**
 Physical memory as kalloc.c and vm.c see it: frames that hold free-list links, page tables or
 data, the free list, and who owns which frame.

 A virtual page number v has directory index v / ENTRIES and table index v % ENTRIES; user
 pages are those below UPAGES (KERNBASE). Entries above that map the kernel and own nothing.
 */
module VmState {
  import opened Common
  import opened Counting

  const ENTRIES := 1024
  const UPAGES := 524288    // KERNBASE / PGSIZE
  const VPAGES := 1048576

  const PTE_P := 1
  const PTE_W := 2
  const PTE_U := 4
  const PDE_FLAGS := PTE_P + PTE_W + PTE_U

  /** A page directory or page table entry: PTE_P clear, or a frame with flags. */
  datatype Entry = Absent | Present(frame: nat, flags: nat)

  datatype Page = Run(next: Option<nat>) | Table(entries: seq<Entry>) | Data(bytes: seq<nat>) | Junk

  /** Who owns an allocated frame: a page directory owns itself; Loose frames are in the hands of the caller. */
  datatype Slot = Root | TableOf(root: nat, d: nat) | PageOf(root: nat, v: nat) | Loose

  datatype Mem = Mem(lo: nat, pages: seq<Page>, free: seq<nat>, owner: map<nat, Slot>)

  predicate IsTable(p: Page) {
    p.Table? && |p.entries| == ENTRIES
  }

  predicate IsRoot(m: Mem, s: nat) {
    s in m.owner && m.owner[s] == Root && s < |m.pages| && IsTable(m.pages[s])
  }

  function Pde(m: Mem, s: nat, d: nat): Entry
    requires IsRoot(m, s) && d < ENTRIES
  {
    m.pages[s].entries[d]
  }

  /** The entry for page v, Absent if there is no table for it. */
  function Pte(m: Mem, s: nat, v: nat): Entry
    requires IsRoot(m, s) && v < VPAGES
  {
    var e := Pde(m, s, v / ENTRIES);
    if e.Present? && e.frame < |m.pages| && IsTable(m.pages[e.frame]) then m.pages[e.frame].entries[v % ENTRIES]
    else Absent
  }

  // ------------------------------------------------ the invariant

  ghost predicate InPool(m: Mem, f: nat) {
    m.lo <= f < |m.pages|
  }

  /** Every frame of the pool is either on the free list, once, or owned. */
  ghost predicate Pool(m: Mem) {
    && Distinct(m.free)
    && (forall j :: 0 <= j < |m.free| ==> InPool(m, m.free[j]) && m.free[j] !in m.owner)
    && (forall f :: f in m.owner ==> InPool(m, f))
    && (forall f: nat :: InPool(m, f) ==> f in m.owner || f in m.free)
  }

  /** The frames in the directory and in the user entries of space s are owned by these entries. */
  ghost predicate RootOk(m: Mem, s: nat)
    requires IsRoot(m, s)
  {
    && (forall d :: 0 <= d < ENTRIES && Pde(m, s, d).Present? ==>
          Owns(m, Pde(m, s, d).frame, TableOf(s, d)) && Pde(m, s, d).flags == PDE_FLAGS)
    && (forall v :: 0 <= v < UPAGES && Pte(m, s, v).Present? ==> Owns(m, Pte(m, s, v).frame, PageOf(s, v)))
  }

  predicate Owns(m: Mem, f: nat, slot: Slot) {
    f in m.owner && m.owner[f] == slot
  }

  /** Every owned frame is where its owner says. */
  ghost predicate SlotOk(m: Mem, f: nat)
    requires f in m.owner && f < |m.pages|
  {
    match m.owner[f]
    case Root => IsTable(m.pages[f])
    case TableOf(s, d) =>
      IsTable(m.pages[f]) && IsRoot(m, s) && d < ENTRIES && Pde(m, s, d).Present? && Pde(m, s, d).frame == f
    case PageOf(s, v) => IsRoot(m, s) && v < UPAGES && Pte(m, s, v).Present? && Pte(m, s, v).frame == f
    case Loose => true
  }

  ghost predicate Owned(m: Mem) {
    && (forall f :: f in m.owner ==> f < |m.pages| && SlotOk(m, f))
    && (forall s :: IsRoot(m, s) ==> RootOk(m, s))
  }

  function Link(free: seq<nat>, j: nat): Option<nat> {
    if j < |free| then Some(free[j]) else None
  }

  /** struct run: each free page holds the link to the next one. */
  ghost predicate Linked(pages: seq<Page>, free: seq<nat>) {
    forall j :: 0 <= j < |free| ==> LinkAt(pages, free, j)
  }

  ghost predicate LinkAt(pages: seq<Page>, free: seq<nat>, j: nat) {
    j < |free| && free[j] < |pages| && pages[free[j]] == Run(Link(free, j + 1))
  }

  ghost predicate Inv(m: Mem) {
    Pool(m) && Owned(m) && Linked(m.pages, m.free)
  }

  // ------------------------------------------------ what a write to a frame changes

  function WithPage(m: Mem, f: nat, p: Page): Mem
    requires f < |m.pages|
  {
    m.(pages := m.pages[f := p])
  }

  predicate TableFrame(m: Mem, f: nat) {
    f in m.owner && (m.owner[f].Root? || m.owner[f].TableOf?)
  }

  /** All spaces look the same. */
  ghost predicate SameView(m: Mem, m': Mem) {
    && (forall s :: IsRoot(m, s) ==> IsRoot(m', s))
    && (forall s, d :: IsRoot(m, s) && IsRoot(m', s) && 0 <= d < ENTRIES ==> Pde(m', s, d) == Pde(m, s, d))
    && (forall s, v :: IsRoot(m, s) && IsRoot(m', s) && 0 <= v < VPAGES ==> Pte(m', s, v) == Pte(m, s, v))
  }

  /** A frame that holds no table can be written without any effect on any space. */
  lemma PlainWrite(m: Mem, f: nat, p: Page)
    requires Inv(m) && f in m.owner && f < |m.pages| && !TableFrame(m, f)
    ensures Inv(WithPage(m, f, p)) && SameView(m, WithPage(m, f, p))
  {
    var m' := WithPage(m, f, p);
    forall s, d | IsRoot(m, s) && 0 <= d < ENTRIES ensures IsRoot(m', s) && Pde(m', s, d) == Pde(m, s, d) {
    }
    forall s, v | IsRoot(m, s) && 0 <= v < VPAGES ensures Pte(m', s, v) == Pte(m, s, v) {
      var e := Pde(m, s, v / ENTRIES);
      assert RootOk(m, s);
      assert e.Present? ==> Owns(m, e.frame, TableOf(s, v / ENTRIES));
    }
    WriteLinked(m, f, p);
    ViewInv(m, m');
  }

  /** Writing an owned frame leaves the free list alone. */
  lemma WriteLinked(m: Mem, f: nat, p: Page)
    requires Pool(m) && Linked(m.pages, m.free) && f in m.owner && f < |m.pages|
    ensures Linked(m.pages[f := p], m.free)
  {
    var pages := m.pages[f := p];
    forall j | 0 <= j < |m.free| ensures LinkAt(pages, m.free, j) {
      assert LinkAt(m.pages, m.free, j);
    }
  }

  /** The invariant depends on the tables only. */
  lemma ViewInv(m: Mem, m': Mem)
    requires Inv(m) && SameView(m, m') && m'.lo == m.lo && |m'.pages| == |m.pages| && m'.free == m.free &&
             m'.owner == m.owner
    requires forall f :: f in m.owner && TableFrame(m, f) ==> m'.pages[f] == m.pages[f]
    requires Linked(m'.pages, m'.free)
    ensures Inv(m')
  {
    forall f | f in m'.owner ensures SlotOk(m', f) {
      assert SlotOk(m, f);
    }
    forall s | IsRoot(m', s) ensures RootOk(m', s) {
      assert SlotOk(m, s) && RootOk(m, s);
    }
  }

  // ------------------------------------------------ kalloc() and kfree()

  /** kalloc(): the front of the free list. */
  function Take(m: Mem): Mem
    requires m.free != []
  {
    m.(free := m.free[1..], owner := m.owner[m.free[0] := Loose])
  }

  lemma TakePool(m: Mem, m': Mem)
    requires Pool(m) && m.free != [] && m' == Take(m)
    ensures Pool(m')
  {
    var f := m.free[0];
    assert forall j :: 0 <= j < |m'.free| ==> m'.free[j] == m.free[j + 1];
    forall g: nat | InPool(m', g) ensures g in m'.owner || g in m'.free {
      if g !in m.owner && g != f {
        var j :| 0 <= j < |m.free| && m.free[j] == g;
        assert m'.free[j - 1] == g;
      }
    }
  }

  lemma TakeLinked(pages: seq<Page>, free: seq<nat>)
    requires Linked(pages, free) && free != []
    ensures Linked(pages, free[1..])
  {
    forall j | 0 <= j < |free| - 1 ensures LinkAt(pages, free[1..], j) {
      assert LinkAt(pages, free, j + 1);
    }
  }

  lemma TakeKeeps(m: Mem, m': Mem)
    requires Inv(m) && m.free != [] && m' == Take(m)
    ensures Inv(m') && SameView(m, m') && m.free[0] !in m.owner && InPool(m, m.free[0])
  {
    TakePool(m, m');
    TakeLinked(m.pages, m.free);
    SlotsSame(m, m', m.free[0]);
  }

  /** Frame f enters or leaves the Loose state: no space changes. */
  lemma SlotsSame(m: Mem, m': Mem, f: nat)
    requires Pool(m') && Linked(m'.pages, m'.free) && Owned(m)
    requires m'.pages == m.pages && (f in m.owner ==> m.owner[f] == Loose) && (f in m'.owner ==> m'.owner[f] == Loose)
    requires forall g :: g != f ==> (g in m'.owner <==> g in m.owner) && (g in m.owner ==> m'.owner[g] == m.owner[g])
    ensures Inv(m') && SameView(m, m')
  {
    forall s | IsRoot(m, s) ensures IsRoot(m', s) {
    }
    forall g | g in m'.owner ensures SlotOk(m', g) {
      if g != f {
        assert SlotOk(m, g);
      }
    }
    forall s | IsRoot(m', s) ensures RootOk(m', s) {
      assert RootOk(m, s);
    }
  }

  /** kfree(): to the front of the free list, with the link written into the page. */
  function Give(m: Mem, f: nat): Mem
    requires f < |m.pages|
  {
    WithPage(m, f, Run(Link(m.free, 0))).(free := [f] + m.free, owner := m.owner - {f})
  }

  lemma GivePool(m: Mem, f: nat, m': Mem)
    requires Pool(m) && f in m.owner && f < |m.pages| && m' == Give(m, f)
    ensures Pool(m')
  {
    assert forall j :: 0 < j < |m'.free| ==> m'.free[j] == m.free[j - 1];
    forall g: nat | InPool(m', g) ensures g in m'.owner || g in m'.free {
      if g == f {
        assert m'.free[0] == g;
      } else if g !in m.owner {
        var j :| 0 <= j < |m.free| && m.free[j] == g;
        assert m'.free[j + 1] == g;
      }
    }
  }

  lemma GiveLinked(pages: seq<Page>, free: seq<nat>, f: nat)
    requires Linked(pages, free) && f !in free && f < |pages|
    ensures Linked(pages[f := Run(Link(free, 0))], [f] + free)
  {
    var pages', free' := pages[f := Run(Link(free, 0))], [f] + free;
    forall j | 0 <= j < |free'| ensures LinkAt(pages', free', j) {
      if j > 0 {
        assert LinkAt(pages, free, j - 1);
      }
    }
  }

  lemma GiveKeeps(m: Mem, f: nat, m': Mem)
    requires Inv(m) && Owns(m, f, Loose) && f < |m.pages| && m' == Give(m, f)
    ensures Inv(m') && SameView(m, m')
  {
    var p := m'.pages[f];
    PlainWrite(m, f, p);
    var m1 := WithPage(m, f, p);
    GivePool(m, f, m');
    GiveLinked(m.pages, m.free, f);
    SlotsSame(m1, m', f);
  }

  // ------------------------------------------------ tables

  function EmptyTable(): Page {
    Table(seq(ENTRIES, _ => Absent))
  }

  /** A zeroed frame becomes a page directory. */
  function NewRoot(m: Mem, f: nat): Mem
    requires f < |m.pages|
  {
    WithPage(m, f, EmptyTable()).(owner := m.owner[f := Root])
  }

  /** No entries of space s but those of page v have changed, and no other space at all. */
  ghost predicate SameBut(m: Mem, m': Mem, s: nat, v: nat) {
    && (forall r :: IsRoot(m, r) ==> IsRoot(m', r))
    && (forall r, w :: IsRoot(m, r) && IsRoot(m', r) && 0 <= w < VPAGES && (r != s || w != v) ==>
        Pte(m', r, w) == Pte(m, r, w))
  }

  lemma NewRootKeeps(m: Mem, f: nat, m': Mem)
    requires Inv(m) && Owns(m, f, Loose) && f < |m.pages| && m' == NewRoot(m, f)
    ensures Inv(m') && SameBut(m, m', f, VPAGES) && IsRoot(m', f) &&
            forall v :: 0 <= v < VPAGES ==> Pte(m', f, v) == Absent
    ensures forall d :: 0 <= d < ENTRIES ==> Pde(m', f, d) == Absent
  {
    PlainWrite(m, f, EmptyTable());
    var m1 := WithPage(m, f, EmptyTable());
    NewRootView(m1, f, m');
    forall g | g in m'.owner ensures SlotOk(m', g) {
      assert SlotOk(m1, g);
    }
    forall s | IsRoot(m', s) ensures RootOk(m', s) {
      if s != f {
        assert RootOk(m1, s);
      }
    }
  }

  lemma NewRootView(m: Mem, f: nat, m': Mem)
    requires Inv(m) && Owns(m, f, Loose) && f < |m.pages| && m.pages[f] == EmptyTable() &&
             m' == m.(owner := m.owner[f := Root])
    ensures SameView(m, m') && IsRoot(m', f)
    ensures forall d :: 0 <= d < ENTRIES ==> Pde(m', f, d) == Absent
    ensures forall v :: 0 <= v < VPAGES ==> Pte(m', f, v) == Absent
  {
  }

  /** walkpgdir(): a zeroed frame becomes the table of directory entry d. */
  function NewTable(m: Mem, s: nat, d: nat, f: nat, flags: nat): Mem
    requires IsRoot(m, s) && d < ENTRIES && f < |m.pages|
  {
    var m1 := WithPage(m, f, EmptyTable());
    WithPage(m1, s, Table(m.pages[s].entries[d := Present(f, flags)])).(owner := m.owner[f := TableOf(s, d)])
  }

  lemma NewTableView(m: Mem, s: nat, d: nat, f: nat, flags: nat, m': Mem)
    requires Inv(m) && IsRoot(m, s) && d < ENTRIES && Pde(m, s, d) == Absent && Owns(m, f, Loose) && f < |m.pages|
    requires m' == NewTable(m, s, d, f, flags)
    ensures SameBut(m, m', s, VPAGES)
    ensures forall r, e :: IsRoot(m, r) && 0 <= e < ENTRIES ==>
              IsRoot(m', r) && (r != s || e != d ==> Pde(m', r, e) == Pde(m, r, e))
    ensures Pde(m', s, d) == Present(f, flags)
  {
    forall r, e | IsRoot(m, r) && 0 <= e < ENTRIES
      ensures IsRoot(m', r) && (r != s || e != d ==> Pde(m', r, e) == Pde(m, r, e)) {
    }
    forall r, w | IsRoot(m, r) && 0 <= w < VPAGES ensures Pte(m', r, w) == Pte(m, r, w) {
      var e := Pde(m, r, w / ENTRIES);
      assert RootOk(m, r);
      assert e.Present? ==> Owns(m, e.frame, TableOf(r, w / ENTRIES));
    }
  }

  lemma NewTableKeeps(m: Mem, s: nat, d: nat, f: nat, flags: nat, m': Mem)
    requires Inv(m) && IsRoot(m, s) && d < ENTRIES && Pde(m, s, d) == Absent && Owns(m, f, Loose) && f < |m.pages|
    requires m' == NewTable(m, s, d, f, flags) && flags == PDE_FLAGS
    ensures Inv(m') && SameBut(m, m', s, VPAGES) && IsRoot(m', s) && Pde(m', s, d) == Present(f, flags)
  {
    NewTableView(m, s, d, f, flags, m');
    WriteLinked(m, f, EmptyTable());
    WriteLinked(WithPage(m, f, EmptyTable()), s, m'.pages[s]);
    forall g | g in m'.owner ensures SlotOk(m', g) {
      assert SlotOk(m, g);
    }
    forall r | IsRoot(m', r) ensures RootOk(m', r) {
      assert RootOk(m, r);
    }
  }

  // ------------------------------------------------ page table entries

  /** *pte = e, in the table of frame tf. */
  function SetPte(m: Mem, tf: nat, t: nat, e: Entry): Mem
    requires tf < |m.pages| && IsTable(m.pages[tf]) && t < ENTRIES
  {
    WithPage(m, tf, Table(m.pages[tf].entries[t := e]))
  }

  /** tf holds the table with the entry for page v, at index t. */
  ghost predicate PteAt(m: Mem, s: nat, v: nat, tf: nat, t: nat) {
    && IsRoot(m, s) && v < VPAGES && t == v % ENTRIES
    && Pde(m, s, v / ENTRIES).Present? && Pde(m, s, v / ENTRIES).frame == tf && tf < |m.pages| && IsTable(m.pages[tf])
  }

  ghost predicate SamePdes(m: Mem, m': Mem) {
    forall r, d :: IsRoot(m, r) && 0 <= d < ENTRIES ==> IsRoot(m', r) && Pde(m', r, d) == Pde(m, r, d)
  }

  lemma Indices(v: nat, w: nat)
    ensures v / ENTRIES == w / ENTRIES && v % ENTRIES == w % ENTRIES ==> v == w
  {
  }

  lemma SetPteView(m: Mem, s: nat, v: nat, tf: nat, t: nat, e: Entry, m': Mem)
    requires Inv(m) && PteAt(m, s, v, tf, t) && m' == SetPte(m, tf, t, e)
    ensures SameBut(m, m', s, v) && SamePdes(m, m') && PteAt(m', s, v, tf, t) && Pte(m', s, v) == e
    ensures Owns(m, tf, TableOf(s, v / ENTRIES))
  {
    assert RootOk(m, s);
    assert Owns(m, tf, TableOf(s, v / ENTRIES));
    forall r, d | IsRoot(m, r) && 0 <= d < ENTRIES ensures IsRoot(m', r) && Pde(m', r, d) == Pde(m, r, d) {
    }
    forall r, w | IsRoot(m, r) && 0 <= w < VPAGES && (r != s || w != v) ensures Pte(m', r, w) == Pte(m, r, w) {
      var p := Pde(m, r, w / ENTRIES);
      assert RootOk(m, r);
      assert p.Present? ==> Owns(m, p.frame, TableOf(r, w / ENTRIES));
      Indices(v, w);
    }
  }

  /** A write to the entry of user page v that moves frame f between that entry and the caller. */
  ghost predicate PteMoves(m: Mem, s: nat, v: nat, e: Entry, f: nat, slot: Slot) {
    && IsRoot(m, s) && v < UPAGES && f in m.owner && f < |m.pages|
    && (slot == Loose || slot == PageOf(s, v)) && (m.owner[f] == Loose || m.owner[f] == PageOf(s, v))
    && (slot == PageOf(s, v) <==> e.Present?) && (e.Present? ==> e.frame == f)
    && (Pte(m, s, v).Present? <==> m.owner[f] == PageOf(s, v))
  }

  lemma SetPteSlot(m: Mem, s: nat, v: nat, e: Entry, f: nat, slot: Slot, m': Mem, g: nat)
    requires Inv(m) && PteMoves(m, s, v, e, f, slot) && |m'.pages| == |m.pages| && m'.owner == m.owner[f := slot]
    requires SameBut(m, m', s, v) && SamePdes(m, m') && IsRoot(m', s) && Pte(m', s, v) == e && g in m.owner
    requires TableFrame(m, g) ==> IsTable(m'.pages[g])
    ensures g < |m'.pages| && SlotOk(m', g)
  {
    assert SlotOk(m, g);
  }

  lemma SetPteRoot(m: Mem, s: nat, v: nat, e: Entry, f: nat, slot: Slot, m': Mem, r: nat)
    requires Inv(m) && PteMoves(m, s, v, e, f, slot) && |m'.pages| == |m.pages| && m'.owner == m.owner[f := slot]
    requires SameBut(m, m', s, v) && SamePdes(m, m') && IsRoot(m', s) && Pte(m', s, v) == e && IsRoot(m, r) &&
             IsRoot(m', r)
    ensures RootOk(m', r)
  {
    assert RootOk(m, r);
  }

  lemma SetPteKeeps(m: Mem, s: nat, v: nat, tf: nat, t: nat, e: Entry, f: nat, slot: Slot, m1: Mem, m': Mem)
    requires Inv(m) && PteAt(m, s, v, tf, t) && m1 == SetPte(m, tf, t, e) && m' == m1.(owner := m.owner[f := slot])
    requires PteMoves(m, s, v, e, f, slot)
    ensures Inv(m') && SameBut(m, m', s, v) && IsRoot(m', s) && Pte(m', s, v) == e
  {
    SetPteView(m, s, v, tf, t, e, m1);
    OwnerView(m1, m', f, slot);
    WriteLinked(m, tf, m1.pages[tf]);
    forall g | g in m'.owner ensures g < |m'.pages| && SlotOk(m', g) {
      SetPteSlot(m, s, v, e, f, slot, m', g);
    }
    forall r | IsRoot(m', r) ensures RootOk(m', r) {
      SetPteRoot(m, s, v, e, f, slot, m', r);
    }
  }

  lemma OwnerView(m: Mem, m': Mem, f: nat, slot: Slot)
    requires m' == m.(owner := m.owner[f := slot]) && f in m.owner && !slot.Root? && !m.owner[f].Root?
    ensures SameView(m, m') && forall r :: IsRoot(m', r) ==> IsRoot(m, r)
  {
  }

  /** mappages() of one user page. */
  lemma MapUserKeeps(m: Mem, s: nat, v: nat, tf: nat, t: nat, f: nat, flags: nat, m1: Mem, m': Mem)
    requires Inv(m) && PteAt(m, s, v, tf, t) && v < UPAGES && Pte(m, s, v) == Absent && Owns(m, f, Loose) &&
             f < |m.pages|
    requires m1 == SetPte(m, tf, t, Present(f, flags)) && m' == m1.(owner := m.owner[f := PageOf(s, v)])
    ensures Inv(m') && SameBut(m, m', s, v) && IsRoot(m', s) && Pte(m', s, v) == Present(f, flags)
  {
    SetPteKeeps(m, s, v, tf, t, Present(f, flags), f, PageOf(s, v), m1, m');
  }

  /** *pte = 0 for a user page: its frame is loose. */
  lemma UnmapKeeps(m: Mem, s: nat, v: nat, tf: nat, t: nat, f: nat, m1: Mem, m': Mem)
    requires Inv(m) && PteAt(m, s, v, tf, t) && v < UPAGES && Pte(m, s, v).Present? && Pte(m, s, v).frame == f
    requires f < |m.pages| && m1 == SetPte(m, tf, t, Absent) && m' == m1.(owner := m.owner[f := Loose])
    ensures Inv(m') && SameBut(m, m', s, v) && IsRoot(m', s) && Pte(m', s, v) == Absent && Owns(m, f, PageOf(s, v))
  {
    assert RootOk(m, s);
    SetPteKeeps(m, s, v, tf, t, Absent, f, Loose, m1, m');
  }

  /** mappages() of one kernel page: nothing is owned by the entry. */
  lemma MapKernelKeeps(m: Mem, s: nat, v: nat, tf: nat, t: nat, e: Entry, m': Mem)
    requires Inv(m) && PteAt(m, s, v, tf, t) && UPAGES <= v && m' == SetPte(m, tf, t, e)
    ensures Inv(m') && SameBut(m, m', s, v) && IsRoot(m', s) && Pte(m', s, v) == e
  {
    SetPteView(m, s, v, tf, t, e, m');
    WriteLinked(m, tf, m'.pages[tf]);
    forall g | g in m'.owner ensures SlotOk(m', g) {
      assert SlotOk(m, g);
    }
    forall r | IsRoot(m', r) ensures RootOk(m', r) {
      assert RootOk(m, r);
    }
  }

  // ------------------------------------------------ permissions

  predicate Allows(flags: nat, bit: nat)
    requires bit > 0
  {
    flags / bit % 2 == 1
  }

  /** What the hardware lets through: both levels must allow it. */
  predicate Permits(m: Mem, s: nat, v: nat, bit: nat)
    requires IsRoot(m, s) && v < VPAGES && bit > 0
  {
    var d, e := Pde(m, s, v / ENTRIES), Pte(m, s, v);
    d.Present? && Allows(d.flags, bit) && e.Present? && Allows(e.flags, bit)
  }

  /** The directory allows everything, so the entry of a page alone decides who may use it, and how. */
  lemma EntryDecides(m: Mem, s: nat, v: nat, bit: nat)
    requires Inv(m) && IsRoot(m, s) && v < VPAGES && (bit == PTE_W || bit == PTE_U)
    ensures Permits(m, s, v, bit) <==> Pte(m, s, v).Present? && Allows(Pte(m, s, v).flags, bit)
  {
    assert RootOk(m, s);
  }

  /** flags & ~PTE_U. */
  function WithoutUser(flags: nat): (r: nat)
    ensures !Allows(r, PTE_U) && (Allows(r, PTE_W) <==> Allows(flags, PTE_W))
    ensures Allows(r, PTE_P) <==> Allows(flags, PTE_P)
  {
    if Allows(flags, PTE_U) then flags - PTE_U else flags
  }

  /** *pte &= ~PTE_U for a user page. */
  lemma GuardKeeps(m: Mem, s: nat, v: nat, tf: nat, t: nat, f: nat, e: Entry, m': Mem)
    requires Inv(m) && PteAt(m, s, v, tf, t) && v < UPAGES && Pte(m, s, v).Present? && Pte(m, s, v).frame == f
    requires e == Present(f, WithoutUser(Pte(m, s, v).flags)) && m' == SetPte(m, tf, t, e)
    ensures Inv(m') && SameBut(m, m', s, v) && IsRoot(m', s) && Pte(m', s, v) == e
  {
    assert RootOk(m, s);
    assert Owns(m, f, PageOf(s, v)) && InPool(m, f);
    assert m.owner[f := PageOf(s, v)] == m.owner;
    SetPteKeeps(m, s, v, tf, t, e, f, PageOf(s, v), m', m');
  }
}

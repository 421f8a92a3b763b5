/** What the operations of vm.c do to whole address spaces. */
module VmSpaces {
  import opened Counting
  import opened VmState

  /** The frames that belong to the space with page directory s. */
  predicate BelongsTo(f: nat, slot: Slot, s: nat) {
    f == s || (slot.TableOf? && slot.root == s) || (slot.PageOf? && slot.root == s)
  }

  /** The other spaces are as they were. */
  ghost predicate OthersSame(m: Mem, m': Mem, s: nat) {
    && (forall r :: IsRoot(m, r) && r != s ==> IsRoot(m', r))
    && (forall r, v :: IsRoot(m, r) && IsRoot(m', r) && r != s && 0 <= v < VPAGES ==> Pte(m', r, v) == Pte(m, r, v))
  }

  /** From m to m' only space s has gained frames. */
  ghost predicate OnlyGrew(m: Mem, m': Mem, s: nat) {
    && |m'.pages| == |m.pages| && m'.lo == m.lo && OthersSame(m, m', s)
    && (forall f :: f in m.owner ==> f in m'.owner && m'.owner[f] == m.owner[f])
    && (forall f :: f in m'.owner && f !in m.owner ==> BelongsTo(f, m'.owner[f], s))
  }

  // ------------------------------------------------ the free set

  /** The free list is, as a set, whatever is not owned. */
  lemma FreeIsUnowned(m: Mem, m': Mem)
    requires Pool(m) && Pool(m') && m'.lo == m.lo && |m'.pages| == |m.pages| && m'.owner.Keys == m.owner.Keys
    ensures Elements(m'.free) == Elements(m.free)
  {
    forall f: nat | f in m.free ensures f in m'.free {
      var j :| 0 <= j < |m.free| && m.free[j] == f;
      assert InPool(m, m.free[j]) && m.free[j] !in m.owner;
      assert InPool(m', f);
    }
    forall f: nat | f in m'.free ensures f in m.free {
      var j :| 0 <= j < |m'.free| && m'.free[j] == f;
      assert InPool(m', m'.free[j]) && m'.free[j] !in m'.owner;
      assert InPool(m, f);
    }
  }

  // ------------------------------------------------ freevm()

  ghost predicate NoUserPages(m: Mem, s: nat) {
    IsRoot(m, s) && forall v :: 0 <= v < UPAGES ==> Pte(m, s, v) == Absent
  }

  /** The owners when s and its tables are detached and the tables of entries below k are free. */
  ghost function Remaining(owner: map<nat, Slot>, s: nat, k: nat): map<nat, Slot> {
    map f | f in owner && !(owner[f].TableOf? && owner[f].root == s && owner[f].d < k) ::
      if f == s || (owner[f].TableOf? && owner[f].root == s) then Loose else owner[f]
  }

  /** A space without user pages lets go of its directory and tables. */
  lemma DetachKeeps(m: Mem, s: nat, m': Mem)
    requires Inv(m) && NoUserPages(m, s) && m' == m.(owner := Remaining(m.owner, s, 0))
    ensures Inv(m') && OthersSame(m, m', s)
  {
    assert m'.owner.Keys == m.owner.Keys;
    assert SlotOk(m, s);
    forall r | IsRoot(m, r) && r != s ensures IsRoot(m', r) {
    }
    forall f | f in m'.owner ensures SlotOk(m', f) {
      assert SlotOk(m, f);
    }
    forall r | IsRoot(m', r) ensures RootOk(m', r) {
      assert RootOk(m, r);
    }
  }

  /** freevm()'s loop over the directory has reached entry k. */
  ghost predicate Dropping(m0: Mem, m: Mem, s: nat, k: nat) {
    && Inv(m0) && NoUserPages(m0, s) && Inv(m) && m.lo == m0.lo && |m.pages| == |m0.pages|
    && m.owner == Remaining(m0.owner, s, k) && m.pages[s] == m0.pages[s] && OthersSame(m0, m, s)
  }

  lemma DropStarts(m: Mem, s: nat, m': Mem)
    requires Inv(m) && NoUserPages(m, s) && m' == m.(owner := Remaining(m.owner, s, 0))
    ensures Dropping(m, m', s, 0)
  {
    DetachKeeps(m, s, m');
  }

  lemma DropNone(m0: Mem, m: Mem, s: nat, k: nat, next: nat)
    requires Dropping(m0, m, s, k) && k < ENTRIES && Pde(m0, s, k) == Absent && next == k + 1
    ensures Dropping(m0, m, s, next)
  {
    forall f | f in m0.owner ensures m0.owner[f] != TableOf(s, k) {
      assert SlotOk(m0, f);
    }
    assert Remaining(m0.owner, s, next) == Remaining(m0.owner, s, k);
  }

  lemma DropOne(m0: Mem, m: Mem, s: nat, k: nat, next: nat, f: nat, m': Mem)
    requires Dropping(m0, m, s, k) && k < ENTRIES && Pde(m0, s, k).Present? && f == Pde(m0, s, k).frame && next == k + 1
    requires f < |m.pages| && m' == Give(m, f)
    ensures Owns(m, f, Loose) && Dropping(m0, m', s, next)
  {
    assert RootOk(m0, s);
    assert Owns(m0, f, TableOf(s, k));
    GiveKeeps(m, f, m');
    forall g | g in m0.owner && m0.owner[g] == TableOf(s, k) ensures g == f {
      assert SlotOk(m0, g);
    }
    assert m'.owner == Remaining(m0.owner, s, next);
  }

  /** What freevm() leaves: all frames of s are free, and nothing else has changed. */
  ghost predicate Freed(m: Mem, m': Mem, s: nat) {
    && Inv(m') && m'.lo == m.lo && |m'.pages| == |m.pages| && OthersSame(m, m', s)
    && (forall f :: f in m'.owner <==> f in m.owner && !BelongsTo(f, m.owner[f], s))
    && (forall f :: f in m'.owner ==> m'.owner[f] == m.owner[f])
  }

  lemma DropDone(m0: Mem, m: Mem, s: nat, m': Mem)
    requires Dropping(m0, m, s, ENTRIES) && s < |m.pages| && m' == Give(m, s)
    ensures Owns(m, s, Loose) && Freed(m0, m', s)
  {
    assert SlotOk(m0, s);
    GiveKeeps(m, s, m');
    forall f | f in m0.owner ensures f in m'.owner <==> !BelongsTo(f, m0.owner[f], s) {
      assert SlotOk(m0, f);
    }
  }

  /** Freeing a space that only grew since m0 brings back the owners, and so the free set, of m0. */
  lemma FreedUndoes(m0: Mem, m: Mem, s: nat, m': Mem)
    requires Inv(m0) && Inv(m) && OnlyGrew(m0, m, s) && s !in m0.owner && Freed(m, m', s)
    ensures m'.owner == m0.owner && Elements(m'.free) == Elements(m0.free) && OthersSame(m0, m', s)
  {
    forall f | f in m0.owner ensures !BelongsTo(f, m0.owner[f], s) {
      assert SlotOk(m0, f);
    }
    assert m'.owner == m0.owner;
    FreeIsUnowned(m0, m');
  }

  // ------------------------------------------------ walkpgdir() and mappages()

  /** Owned frames stay as they are, new ones are tables of s, and no page has changed that is not a table. */
  ghost predicate TablesGrew(m: Mem, m': Mem, s: nat) {
    && |m'.pages| == |m.pages| && m'.lo == m.lo
    && (forall f :: f in m.owner ==> f in m'.owner && m'.owner[f] == m.owner[f])
    && (forall f :: f in m'.owner && f !in m.owner ==> m'.owner[f].TableOf? && m'.owner[f].root == s)
    && (forall f :: f in m.owner && f < |m.pages| && !TableFrame(m, f) ==> m'.pages[f] == m.pages[f])
  }

  /** walkpgdir(pgdir, va, 1): the table is there, and every entry is as it was. */
  ghost predicate Walked(m: Mem, m': Mem, s: nat, v: nat, tf: nat) {
    Inv(m') && PteAt(m', s, v, tf, v % ENTRIES) && SameBut(m, m', s, VPAGES) && TablesGrew(m, m', s)
  }

  lemma WalkedHere(m: Mem, s: nat, v: nat, tf: nat)
    requires Inv(m) && IsRoot(m, s) && v < VPAGES && Pde(m, s, v / ENTRIES).Present? &&
             tf == Pde(m, s, v / ENTRIES).frame
    ensures Walked(m, m, s, v, tf)
  {
    assert RootOk(m, s);
    assert Owns(m, tf, TableOf(s, v / ENTRIES));
    assert SlotOk(m, tf);
  }

  lemma WalkedNew(m: Mem, m1: Mem, s: nat, v: nat, d: nat, f: nat, flags: nat, m': Mem)
    requires Inv(m) && IsRoot(m, s) && v < VPAGES && d == v / ENTRIES && Pde(m, s, d) == Absent && m.free != [] &&
             f == m.free[0]
    requires m1 == Take(m) && IsRoot(m1, s) && f < |m.pages| && m' == NewTable(m1, s, d, f, flags) && flags == PDE_FLAGS
    ensures Walked(m, m', s, v, f)
  {
    TakeKeeps(m, m1);
    NewTableKeeps(m1, s, d, f, flags, m');
    NewTableGrew(m, m1, s, d, f, flags, m');
  }

  lemma NewTableGrew(m: Mem, m1: Mem, s: nat, d: nat, f: nat, flags: nat, m': Mem)
    requires m.free != [] && f == m.free[0] && f !in m.owner && m1 == Take(m) && IsRoot(m1, s) && IsRoot(m, s)
    requires f < |m.pages| && d < ENTRIES && m' == NewTable(m1, s, d, f, flags)
    ensures TablesGrew(m, m', s)
  {
  }

  /** mappages() of user page v to the loose frame f. */
  ghost predicate MapsPage(m: Mem, m': Mem, s: nat, v: nat, f: nat, flags: nat) {
    && Inv(m') && SameBut(m, m', s, v) && IsRoot(m', s) && v < UPAGES && Pte(m', s, v) == Present(f, flags)
    && |m'.pages| == |m.pages| && m'.lo == m.lo
    && Owns(m', f, PageOf(s, v))
    && (forall g :: g in m.owner && g != f ==> g in m'.owner && m'.owner[g] == m.owner[g])
    && (forall g :: g in m'.owner && g !in m.owner ==> m'.owner[g].TableOf? && m'.owner[g].root == s)
    && (forall g :: g in m.owner && g < |m.pages| && !TableFrame(m, g) ==> m'.pages[g] == m.pages[g])
  }

  lemma WalkThenMap(m: Mem, m1: Mem, s: nat, v: nat, tf: nat, t: nat, f: nat, flags: nat, m2: Mem, m': Mem)
    requires Inv(m) && IsRoot(m, s) && v < UPAGES && Pte(m, s, v) == Absent && Owns(m, f, Loose) && f < |m.pages|
    requires Walked(m, m1, s, v, tf) && t == v % ENTRIES
    requires m2 == SetPte(m1, tf, t, Present(f, flags)) && m' == m2.(owner := m1.owner[f := PageOf(s, v)])
    ensures MapsPage(m, m', s, v, f, flags)
  {
    SetPteView(m1, s, v, tf, t, Present(f, flags), m2);
    MapUserKeeps(m1, s, v, tf, t, f, flags, m2, m');
  }

  /** mappages() of kernel page v. */
  lemma WalkThenKernel(m: Mem, m1: Mem, s: nat, v: nat, tf: nat, t: nat, e: Entry, m': Mem)
    requires Inv(m) && IsRoot(m, s) && UPAGES <= v < VPAGES && Walked(m, m1, s, v, tf) && t == v % ENTRIES
    requires m' == SetPte(m1, tf, t, e)
    ensures Inv(m') && SameBut(m, m', s, v) && IsRoot(m', s) && Pte(m', s, v) == e && TablesGrew(m, m', s)
  {
    SetPteView(m1, s, v, tf, t, e, m');
    MapKernelKeeps(m1, s, v, tf, t, e, m');
  }

  // ------------------------------------------------ deallocuvm()

  /** deallocuvm() has unmapped and freed the pages from a to k of space s. */
  ghost predicate Unmapped(m0: Mem, m: Mem, s: nat, a: nat, k: nat) {
    && Inv(m0) && Inv(m) && IsRoot(m0, s) && IsRoot(m, s) && m.lo == m0.lo && |m.pages| == |m0.pages| &&
       OthersSame(m0, m, s)
    && (forall v :: 0 <= v < VPAGES ==> Pte(m, s, v) == if a <= v < k then Absent else Pte(m0, s, v))
    && (forall f :: f in m.owner <==> f in m0.owner && !InRange(m0.owner[f], s, a, k))
    && (forall f :: f in m.owner ==> m.owner[f] == m0.owner[f])
  }

  predicate InRange(slot: Slot, s: nat, a: nat, k: nat) {
    slot.PageOf? && slot.root == s && a <= slot.v < k
  }

  lemma UnmapStarts(m: Mem, s: nat, a: nat)
    requires Inv(m) && IsRoot(m, s)
    ensures Unmapped(m, m, s, a, a)
  {
  }

  /** Pages k to next are not mapped. */
  lemma UnmapNone(m0: Mem, m: Mem, s: nat, a: nat, k: nat, next: nat)
    requires Unmapped(m0, m, s, a, k) && a <= k <= next <= UPAGES &&
             forall v :: k <= v < next ==> Pte(m, s, v) == Absent
    ensures Unmapped(m0, m, s, a, next)
  {
    forall f | f in m0.owner ensures InRange(m0.owner[f], s, a, next) == InRange(m0.owner[f], s, a, k) {
      assert SlotOk(m0, f);
    }
  }

  /** kfree() of the frame of page k, and *pte = 0. */
  lemma UnmapOne(m0: Mem, m: Mem, s: nat, a: nat, k: nat, next: nat, tf: nat, t: nat, f: nat, m1: Mem, m': Mem)
    requires Unmapped(m0, m, s, a, k) && a <= k < UPAGES && next == k + 1
    requires PteAt(m, s, k, tf, t) && Pte(m, s, k).Present? && Pte(m, s, k).frame == f && f < |m.pages|
    requires m1 == Give(m, f) && tf < |m1.pages| && IsTable(m1.pages[tf]) && m' == SetPte(m1, tf, t, Absent)
    ensures Unmapped(m0, m', s, a, next)
  {
    var m2 := SetPte(m, tf, t, Absent);
    var m3 := m2.(owner := m.owner[f := Loose]);
    UnmapKeeps(m, s, k, tf, t, f, m2, m3);
    UnmapOrder(m, tf, t, f, m3, m');
    GiveKeeps(m3, f, m');
    forall g | g in m0.owner ensures g in m'.owner <==> !InRange(m0.owner[g], s, a, next) {
      assert SlotOk(m0, g);
    }
  }

  /** The two writes, to different frames, commute. */
  lemma UnmapOrder(m: Mem, tf: nat, t: nat, f: nat, m3: Mem, m': Mem)
    requires tf < |m.pages| && f < |m.pages| && f != tf && IsTable(m.pages[tf]) && t < ENTRIES
    requires m3 == SetPte(m, tf, t, Absent).(owner := m.owner[f := Loose])
    requires IsTable(Give(m, f).pages[tf]) && m' == SetPte(Give(m, f), tf, t, Absent)
    ensures m' == Give(m3, f)
  {
    assert m.owner[f := Loose] - {f} == m.owner - {f};
  }

  /** deallocuvm(pgdir, KERNBASE, 0) leaves no user pages. */
  lemma UnmappedAll(m0: Mem, m: Mem, s: nat)
    requires Unmapped(m0, m, s, 0, UPAGES)
    ensures NoUserPages(m, s)
  {
  }

  lemma UnmappedThenFreed(m0: Mem, m: Mem, m': Mem, s: nat)
    requires Unmapped(m0, m, s, 0, UPAGES) && Freed(m, m', s)
    ensures Freed(m0, m', s)
  {
    forall f | f in m0.owner && m0.owner[f].PageOf? && m0.owner[f].root == s
      ensures InRange(m0.owner[f], s, 0, UPAGES) {
      assert SlotOk(m0, f);
    }
  }

  // ------------------------------------------------ allocuvm()

  /** The entries from a to k of space s are new; all others are as they were. */
  ghost predicate NewEntries(m0: Mem, m: Mem, s: nat, a: nat, k: nat) {
    && IsRoot(m0, s) && IsRoot(m, s) && OthersSame(m0, m, s)
    && (forall v :: 0 <= v < VPAGES && !(a <= v < k) ==> Pte(m, s, v) == Pte(m0, s, v))
    && (forall v :: 0 <= v < VPAGES && a <= v < k ==> Pte(m, s, v).Present?)
  }

  /** The frames gained are tables of s and those pages, and perhaps the loose frame x. */
  ghost predicate NewFrames(o: map<nat, Slot>, o': map<nat, Slot>, s: nat, a: nat, k: nat, x: nat) {
    && (forall f :: f in o ==> f in o' && o'[f] == o[f])
    && (forall f :: f in o' && f !in o ==> NewFrame(o'[f], s, a, k) || (f == x && o'[f] == Loose))
  }

  /** The pages from a to k of space s are newly mapped; x may be a page in the caller's hands. */
  ghost predicate Grown(m0: Mem, m: Mem, s: nat, a: nat, k: nat, x: nat) {
    && Inv(m0) && Inv(m) && m.lo == m0.lo && |m.pages| == |m0.pages|
    && NewEntries(m0, m, s, a, k) && NewFrames(m0.owner, m.owner, s, a, k, x)
  }

  predicate NewFrame(slot: Slot, s: nat, a: nat, k: nat) {
    (slot.TableOf? && slot.root == s) || InRange(slot, s, a, k)
  }

  lemma GrowStarts(m: Mem, s: nat, a: nat, x: nat)
    requires Inv(m) && IsRoot(m, s)
    ensures Grown(m, m, s, a, a, x)
  {
  }

  lemma GrowTakes(m0: Mem, m: Mem, s: nat, a: nat, k: nat, none: nat, f: nat, p: Page, m1: Mem, m2: Mem)
    requires Grown(m0, m, s, a, k, none) && none !in m.owner && m.free != [] && f == m.free[0] && m1 == Take(m) &&
             f < |m.pages|
    requires m2 == WithPage(m1, f, p)
    ensures Grown(m0, m2, s, a, k, f) && Owns(m2, f, Loose) && f !in m0.owner
  {
    TakeKeeps(m, m1);
    PlainWrite(m1, f, p);
  }

  lemma GrowEntries(m0: Mem, m: Mem, s: nat, a: nat, k: nat, next: nat, m': Mem)
    requires NewEntries(m0, m, s, a, k) && a <= k < UPAGES && next == k + 1
    requires SameBut(m, m', s, k) && IsRoot(m', s) && Pte(m', s, k).Present?
    ensures NewEntries(m0, m', s, a, next)
  {
  }

  lemma GrowFrames(m0: Mem, m: Mem, s: nat, a: nat, k: nat, next: nat, f: nat, flags: nat, m': Mem, none: nat)
    requires NewFrames(m0.owner, m.owner, s, a, k, f) && f !in m0.owner && a <= k && next == k + 1
    requires MapsPage(m, m', s, k, f, flags)
    ensures NewFrames(m0.owner, m'.owner, s, a, next, none)
  {
  }

  lemma GrowMaps(m0: Mem, m: Mem, s: nat, a: nat, k: nat, next: nat, f: nat, flags: nat, m': Mem, none: nat)
    requires Grown(m0, m, s, a, k, f) && Owns(m, f, Loose) && f !in m0.owner && a <= k < UPAGES && next == k + 1
    requires MapsPage(m, m', s, k, f, flags)
    ensures Grown(m0, m', s, a, next, none)
  {
    GrowEntries(m0, m, s, a, k, next, m');
    GrowFrames(m0, m, s, a, k, next, f, flags, m', none);
  }

  /** After a failed allocuvm(): every mapping is as it was; at most some empty tables are left. */
  ghost predicate RolledBack(m0: Mem, m: Mem, s: nat) {
    && Inv(m) && IsRoot(m0, s) && IsRoot(m, s) && m.lo == m0.lo && |m.pages| == |m0.pages| && OthersSame(m0, m, s)
    && (forall v :: 0 <= v < VPAGES ==> Pte(m, s, v) == Pte(m0, s, v))
    && (forall f :: f in m0.owner ==> f in m.owner && m.owner[f] == m0.owner[f])
    && (forall f :: f in m.owner && f !in m0.owner ==> m.owner[f].TableOf? && m.owner[f].root == s)
  }

  lemma GrowRolledBack(m0: Mem, m: Mem, s: nat, a: nat, k: nat, b: nat, none: nat, m': Mem)
    requires Grown(m0, m, s, a, k, none) && none !in m.owner && a <= k <= b <= UPAGES && Unmapped(m, m', s, a, b)
    requires forall v :: a <= v < b ==> Pte(m0, s, v) == Absent
    ensures RolledBack(m0, m', s)
  {
    forall f | f in m0.owner ensures !InRange(m0.owner[f], s, a, b) {
      assert SlotOk(m0, f);
    }
    forall f | f in m.owner && InRange(m.owner[f], s, a, k) ensures InRange(m.owner[f], s, a, b) {
    }
  }

  lemma GrowRolledBackWith(m0: Mem, m: Mem, s: nat, a: nat, k: nat, b: nat, f: nat, m1: Mem, m': Mem)
    requires Grown(m0, m, s, a, k, f) && Owns(m, f, Loose) && f !in m0.owner && a <= k <= b <= UPAGES &&
             Unmapped(m, m1, s, a, b)
    requires forall v :: a <= v < b ==> Pte(m0, s, v) == Absent
    requires f < |m1.pages| && m' == Give(m1, f)
    ensures Owns(m1, f, Loose) && RolledBack(m0, m', s)
  {
    GiveKeeps(m1, f, m');
    forall g | g in m0.owner ensures !InRange(m0.owner[g], s, a, b) {
      assert SlotOk(m0, g);
    }
  }

  // ------------------------------------------------ what user pages hold

  /** The user pages that are mapped where they were hold what they held, in every space. */
  ghost predicate UserPagesKept(m0: Mem, m: Mem) {
    forall f :: f in m0.owner && m0.owner[f].PageOf? && Owns(m, f, m0.owner[f]) ==> SamePage(m0, m, f)
  }

  ghost predicate SamePage(m0: Mem, m: Mem, f: nat) {
    f < |m0.pages| && f < |m.pages| && m.pages[f] == m0.pages[f]
  }

  lemma KeptStarts(m: Mem)
    requires Inv(m)
    ensures UserPagesKept(m, m)
  {
    forall f | f in m.owner ensures f < |m.pages| {
      assert InPool(m, f);
    }
  }

  /** kfree() of a page, or of a table: no page that is still mapped has changed. */
  lemma GiveKeepsPages(m0: Mem, m: Mem, f: nat, m': Mem)
    requires UserPagesKept(m0, m) && f < |m.pages| && m' == Give(m, f)
    ensures UserPagesKept(m0, m')
  {
    forall g | g in m0.owner && m0.owner[g].PageOf? && Owns(m', g, m0.owner[g]) ensures SamePage(m0, m', g) {
      assert Owns(m, g, m0.owner[g]) && g != f;
    }
  }

  lemma DetachKeepsPages(m0: Mem, m: Mem, s: nat, m': Mem)
    requires UserPagesKept(m0, m) && m' == m.(owner := Remaining(m.owner, s, 0))
    ensures UserPagesKept(m0, m')
  {
    forall g | g in m0.owner && m0.owner[g].PageOf? && Owns(m', g, m0.owner[g]) ensures SamePage(m0, m', g) {
      assert Owns(m, g, m0.owner[g]);
    }
  }

  /** Unmapping takes pages away and gives none. */
  lemma UnmapKeepsPages(m0: Mem, m: Mem, m': Mem, s: nat, a: nat, b: nat)
    requires UserPagesKept(m0, m) && UserPagesKept(m, m') && Unmapped(m, m', s, a, b)
    ensures UserPagesKept(m0, m')
  {
    forall g | g in m0.owner && m0.owner[g].PageOf? && Owns(m', g, m0.owner[g]) ensures SamePage(m0, m', g) {
      assert Owns(m, g, m0.owner[g]);
      assert SamePage(m0, m, g) && SamePage(m, m', g);
    }
  }

  /** A write to a table. */
  lemma TableKeepsPages(m0: Mem, m: Mem, tf: nat, p: Page, m': Mem)
    requires UserPagesKept(m0, m) && tf < |m.pages| && m' == WithPage(m, tf, p) &&
             !(tf in m.owner && m.owner[tf].PageOf?)
    ensures UserPagesKept(m0, m')
  {
    forall g | g in m0.owner && m0.owner[g].PageOf? && Owns(m', g, m0.owner[g]) ensures SamePage(m0, m', g) {
      assert Owns(m, g, m0.owner[g]) && g != tf;
    }
  }

  /** Page v is a fresh one: zeroed, and writable by the user. */
  ghost predicate ZeroAt(m: Mem, s: nat, v: nat, flags: nat, zero: Page)
    requires IsRoot(m, s) && v < VPAGES
  {
    var e := Pte(m, s, v);
    e.Present? && e.flags == flags && e.frame < |m.pages| && m.pages[e.frame] == zero
  }

  ghost predicate Zeroed(m: Mem, s: nat, a: nat, k: nat, flags: nat, zero: Page) {
    IsRoot(m, s) && k <= VPAGES && forall v :: a <= v < k ==> ZeroAt(m, s, v, flags, zero)
  }

  /** Taking a page from the free list and zeroing it. */
  lemma TakeKeepsPages(m0: Mem, m: Mem, f: nat, p: Page, m1: Mem, m2: Mem)
    requires UserPagesKept(m0, m) && Inv(m) && m.free != [] && f == m.free[0] && f < |m.pages| && m1 == Take(m) &&
             m2 == WithPage(m1, f, p)
    ensures UserPagesKept(m0, m2)
  {
    forall g | g in m0.owner && m0.owner[g].PageOf? && Owns(m2, g, m0.owner[g]) ensures SamePage(m0, m2, g) {
      assert g != f && Owns(m, g, m0.owner[g]);
    }
  }

  /** Mapping page v to a frame in the caller's hands. */
  lemma MapKeepsPages(m0: Mem, m: Mem, m': Mem, s: nat, v: nat, f: nat, flags: nat)
    requires UserPagesKept(m0, m) && MapsPage(m, m', s, v, f, flags) && f !in m0.owner
    ensures UserPagesKept(m0, m')
  {
    forall g | g in m0.owner && m0.owner[g].PageOf? && Owns(m', g, m0.owner[g]) ensures SamePage(m0, m', g) {
      assert g != f && g in m.owner;
    }
  }

  lemma ZeroTake(m: Mem, s: nat, a: nat, k: nat, flags: nat, zero: Page, f: nat, p: Page, m1: Mem, m2: Mem)
    requires Zeroed(m, s, a, k, flags, zero) && Inv(m) && k <= UPAGES
    requires m.free != [] && f == m.free[0] && f < |m.pages| && m1 == Take(m) && m2 == WithPage(m1, f, p)
    ensures Zeroed(m2, s, a, k, flags, zero)
  {
    TakeKeeps(m, m1);
    PlainWrite(m1, f, p);
    assert RootOk(m, s);
    forall v | a <= v < k ensures ZeroAt(m2, s, v, flags, zero) {
      assert ZeroAt(m, s, v, flags, zero);
      assert Pte(m2, s, v) == Pte(m1, s, v) == Pte(m, s, v);
      assert Owns(m, Pte(m, s, v).frame, PageOf(s, v));
    }
  }

  lemma ZeroMap(m: Mem, m': Mem, s: nat, a: nat, k: nat, next: nat, flags: nat, zero: Page, f: nat)
    requires Zeroed(m, s, a, k, flags, zero) && Inv(m) && a <= k < UPAGES && next == k + 1
    requires MapsPage(m, m', s, k, f, flags) && Owns(m, f, Loose) && f < |m.pages| && m.pages[f] == zero
    ensures Zeroed(m', s, a, next, flags, zero)
  {
    assert RootOk(m, s);
    forall v | a <= v < k ensures ZeroAt(m', s, v, flags, zero) {
      assert ZeroAt(m, s, v, flags, zero);
      assert Pte(m', s, v) == Pte(m, s, v);
      assert Owns(m, Pte(m, s, v).frame, PageOf(s, v));
    }
    assert ZeroAt(m', s, k, flags, zero);
  }
}

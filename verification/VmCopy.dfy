/** setupkvm() and copyuvm(): a new space, built up entry by entry or taken back whole. */
module VmCopy {
  import opened Counting
  import opened VmState
  import opened VmSpaces
  import opened VmCost

  /** A row of kmap[]: n pages from virtual page v on, mapped to frames from pa on. */
  datatype Range = Range(v: nat, n: nat, pa: nat, flags: nat)

  /** Kernel ranges in order, apart, and above the user pages. */
  predicate KmapOk(kmap: seq<Range>) {
    && (forall i :: 0 <= i < |kmap| ==> UPAGES <= kmap[i].v && kmap[i].v + kmap[i].n <= VPAGES)
    && (forall i, j :: 0 <= i < j < |kmap| ==> kmap[i].v + kmap[i].n <= kmap[j].v)
  }

  /** kmap[] of vm.c, by page number; `data` is where the kernel's writable data starts. */
  function Kmap(data: nat): seq<Range>
    requires 0x80100 <= data <= 0x8E000
  {
    [Range(0x80000, 0x100, 0, 3), Range(0x80100, data - 0x80100, 0x100, 1),
     Range(data, 0x8E000 - data, data - 0x80000, 3), Range(0xFE000, 0x2000, 0xFE000, 3)]
  }

  lemma KmapIsOk(data: nat)
    requires 0x80100 <= data <= 0x8E000
    ensures KmapOk(Kmap(data))
  {
  }

  predicate In(r: Range, j: nat, v: nat) {
    r.v <= v < r.v + j
  }

  function RangeEntry(r: Range, v: nat): Entry
    requires r.v <= v
  {
    Present(r.pa + v - r.v, r.flags)
  }

  /** The entry of page v once the first i ranges are mapped. */
  function KernelEntry(kmap: seq<Range>, i: nat, v: nat): Entry
    requires i <= |kmap|
  {
    if i == 0 then Absent
    else if In(kmap[i - 1], kmap[i - 1].n, v) then RangeEntry(kmap[i - 1], v)
    else KernelEntry(kmap, i - 1, v)
  }

  lemma {:induction false} OutsideRanges(kmap: seq<Range>, i: nat, v: nat)
    requires i <= |kmap| && forall q :: 0 <= q < i ==> !In(kmap[q], kmap[q].n, v)
    ensures KernelEntry(kmap, i, v) == Absent
  {
    if i > 0 {
      OutsideRanges(kmap, i - 1, v);
    }
  }

  /** User pages are in no kernel range. */
  lemma NoKernelEntry(kmap: seq<Range>, v: nat)
    requires KmapOk(kmap) && v < UPAGES
    ensures KernelEntry(kmap, |kmap|, v) == Absent
  {
    OutsideRanges(kmap, |kmap|, v);
  }

  // ------------------------------------------------ the pages it takes

  /** Table d has entries of some kernel range. */
  ghost predicate KernelTable(kmap: seq<Range>, d: nat) {
    exists i :: 0 <= i < |kmap| && Reaches(d, kmap[i].v, kmap[i].v + kmap[i].n)
  }

  ghost function KernelTables(kmap: seq<Range>): set<nat> {
    set d: nat | d < ENTRIES && KernelTable(kmap, d)
  }

  /** All tables of a space with the kernel's ranges and n user pages. */
  ghost function AllTables(kmap: seq<Range>, n: nat): set<nat> {
    KernelTables(kmap) + TablesOf(0, n)
  }

  /** What copyuvm() of n pages takes: a directory, the tables of the kernel, those of the pages, and the pages. */
  ghost function Need(kmap: seq<Range>, n: nat): nat {
    1 + |KernelTables(kmap)| + |TablesOf(0, n)| + n
  }

  /** User pages and kernel ranges have no table in common. */
  lemma NeedIsCost(kmap: seq<Range>, n: nat, pages: nat)
    requires KmapOk(kmap) && n <= UPAGES && pages == 1 + n
    ensures Cost({}, AllTables(kmap, n), pages) == Need(kmap, n)
  {
    var ks, us := KernelTables(kmap), TablesOf(0, n);
    assert ks * us == {};
    assert AllTables(kmap, n) - {} == ks + us;
  }

  /** setupkvm() alone takes what a copy of no pages does. */
  lemma NeedOfNone(kmap: seq<Range>, n: nat)
    ensures AllTables(kmap, 0) == KernelTables(kmap) && Need(kmap, 0) == 1 + |KernelTables(kmap)| <= Need(kmap, n)
  {
    assert TablesOf(0, 0) == {};
  }

  lemma UserTables(n: nat, c: nat)
    requires n <= UPAGES && c == (n + ENTRIES - 1) / ENTRIES
    ensures |TablesOf(0, n)| == c
  {
    var r := TablesOf(0, n);
    forall d: nat | d < ENTRIES ensures d in r <==> d < c {
      assert Reaches(d, 0, n) <==> d * ENTRIES < n;
    }
    RangeSize(r, 0, c);
  }

  lemma ShippedTable(data: nat, d: nat)
    requires 0x80100 <= data <= 0x8E000 && d < ENTRIES
    ensures KernelTable(Kmap(data), d) <==> 512 <= d < 568 || 1016 <= d
  {
    var kmap := Kmap(data);
    assert Reaches(d, kmap[0].v, kmap[0].v + kmap[0].n) <==> d == 512;
    assert Reaches(d, kmap[3].v, kmap[3].v + kmap[3].n) <==> 1016 <= d;
    if 512 < d < 568 {
      assert Reaches(d, kmap[1].v, kmap[1].v + kmap[1].n) || Reaches(d, kmap[2].v, kmap[2].v + kmap[2].n);
    }
  }

  /** vm.c's own ranges fall in 64 tables, 56 for physical memory and 8 for the devices. */
  lemma ShippedTables(data: nat)
    requires 0x80100 <= data <= 0x8E000
    ensures |KernelTables(Kmap(data))| == 64
  {
    var all := KernelTables(Kmap(data));
    forall d: nat | d < ENTRIES ensures d in all <==> 512 <= d < 568 || 1016 <= d {
      ShippedTable(data, d);
    }
    var low, high := set d | d in all && d < 568, set d | d in all && 568 <= d;
    RangeSize(low, 512, 568);
    RangeSize(high, 1016, 1024);
    assert all == low + high && low * high == {};
  }

  /** So fork() of a process of n pages needs 65 pages, n, and one for each 1024 of them. */
  lemma ShippedNeed(data: nat, n: nat)
    requires 0x80100 <= data <= 0x8E000 && n <= UPAGES
    ensures Need(Kmap(data), n) == 65 + n + (n + ENTRIES - 1) / ENTRIES
  {
    ShippedTables(data);
    UserTables(n, (n + ENTRIES - 1) / ENTRIES);
  }

  // ------------------------------------------------ a space being built

  /** d is a space that was not there in m0. */
  ghost predicate Fresh(m0: Mem, m: Mem, d: nat) {
    Inv(m0) && Inv(m) && IsRoot(m, d) && d !in m0.owner && OnlyGrew(m0, m, d) && PagesKept(m0, m)
  }

  /** No page that was in use, other than a table, has changed. */
  ghost predicate PagesKept(m0: Mem, m: Mem) {
    && |m.pages| == |m0.pages|
    && forall f :: f in m0.owner && f < |m0.pages| && !TableFrame(m0, f) ==> m.pages[f] == m0.pages[f]
  }

  lemma FreshRoot(m0: Mem, m1: Mem, f: nat, m: Mem)
    requires Inv(m0) && m0.free != [] && f == m0.free[0] && m1 == Take(m0) && f < |m0.pages| && m == NewRoot(m1, f)
    ensures Fresh(m0, m, f) && forall v :: 0 <= v < VPAGES ==> Pte(m, f, v) == Absent
  {
    TakeKeeps(m0, m1);
    NewRootKeeps(m1, f, m);
  }

  /** Space d has the first i ranges, and j pages of the next. */
  ghost predicate Laid(m0: Mem, m: Mem, d: nat, kmap: seq<Range>, i: nat, j: nat)
    requires i <= |kmap|
  {
    && Fresh(m0, m, d)
    && forall v :: 0 <= v < VPAGES ==>
      Pte(m, d, v) == if i < |kmap| && In(kmap[i], j, v) then RangeEntry(kmap[i], v) else KernelEntry(kmap, i, v)
  }

  /** The next page of a range is not mapped yet: "remap" is unreachable. */
  lemma NotRemapped(m0: Mem, m: Mem, d: nat, kmap: seq<Range>, i: nat, j: nat, v: nat)
    requires KmapOk(kmap) && i < |kmap| && j < kmap[i].n && Laid(m0, m, d, kmap, i, j) && v == kmap[i].v + j
    ensures UPAGES <= v < VPAGES && Pte(m, d, v) == Absent
  {
    OutsideRanges(kmap, i, v);
  }

  /** A table or kernel entry for d, seen from m0. */
  lemma FreshGrows(m0: Mem, m: Mem, d: nat, v: nat, m': Mem)
    requires Fresh(m0, m, d) && Inv(m') && SameBut(m, m', d, v) && IsRoot(m', d) && TablesGrew(m, m', d)
    ensures Fresh(m0, m', d)
  {
    FreshOthers(m0, m, d, v, m');
    FreshFrames(m0, m, d, m');
  }

  lemma FreshOthers(m0: Mem, m: Mem, d: nat, v: nat, m': Mem)
    requires OthersSame(m0, m, d) && SameBut(m, m', d, v)
    ensures OthersSame(m0, m', d)
  {
  }

  lemma FreshFrames(m0: Mem, m: Mem, d: nat, m': Mem)
    requires OnlyGrew(m0, m, d) && PagesKept(m0, m) && TablesGrew(m, m', d)
    ensures forall f :: f in m0.owner ==> f in m'.owner && m'.owner[f] == m0.owner[f]
    ensures forall f :: f in m'.owner && f !in m0.owner ==> BelongsTo(f, m'.owner[f], d)
    ensures PagesKept(m0, m')
  {
  }

  lemma LayOne(m0: Mem, m: Mem, d: nat, kmap: seq<Range>, i: nat, j: nat, next: nat, v: nat, m': Mem)
    requires KmapOk(kmap) && i < |kmap| && j < kmap[i].n && Laid(m0, m, d, kmap, i, j) && v == kmap[i].v + j &&
             next == j + 1
    requires v < VPAGES && Inv(m') && SameBut(m, m', d, v) && IsRoot(m', d) && TablesGrew(m, m', d)
    requires Pte(m', d, v) == RangeEntry(kmap[i], v)
    ensures Laid(m0, m', d, kmap, i, next)
  {
    FreshGrows(m0, m, d, v, m');
  }

  lemma LayRange(m0: Mem, m: Mem, d: nat, kmap: seq<Range>, i: nat, next: nat)
    requires i < |kmap| && next == i + 1 && Laid(m0, m, d, kmap, i, kmap[i].n)
    ensures Laid(m0, m, d, kmap, next, 0)
  {
  }

  /** What setupkvm() has taken for space d, and all it can ever take. */
  ghost predicate KvmOwed(m0: Mem, m: Mem, d: nat, kmap: seq<Range>) {
    Owed(|m0.free|, {}, m, d, KernelTables(kmap), 1)
  }

  lemma RootOwed(m0: Mem, m1: Mem, f: nat, m: Mem, kmap: seq<Range>)
    requires m0.free != [] && f == m0.free[0] && f < |m0.pages| && m1 == Take(m0) && m == NewRoot(m1, f)
    ensures KvmOwed(m0, m, f, kmap)
  {
    assert IsRoot(m, f) && Tables(m, f) == {};
  }

  lemma InKernelTables(kmap: seq<Range>, i: nat, v: nat)
    requires i < |kmap| && In(kmap[i], kmap[i].n, v) && v < VPAGES
    ensures v / ENTRIES in KernelTables(kmap)
  {
    assert Reaches(v / ENTRIES, kmap[i].v, kmap[i].v + kmap[i].n);
  }

  lemma KvmShort(m0: Mem, m: Mem, d: nat, kmap: seq<Range>, i: nat, v: nat)
    requires KvmOwed(m0, m, d, kmap) && NoTable(m, d, v) && i < |kmap| && In(kmap[i], kmap[i].n, v) && v < VPAGES
    ensures |m0.free| < Need(kmap, 0)
  {
    InKernelTables(kmap, i, v);
    ShortOfTable(|m0.free|, {}, m, d, v, KernelTables(kmap), 1, 1);
    NeedOfNone(kmap, 0);
    assert KernelTables(kmap) - {} == KernelTables(kmap);
  }

  lemma KvmMore(m0: Mem, m: Mem, m': Mem, d: nat, kmap: seq<Range>, i: nat, v: nat)
    requires KvmOwed(m0, m, d, kmap) && TableCost(m, m', d, v) && i < |kmap| && In(kmap[i], kmap[i].n, v) && v < VPAGES
    ensures KvmOwed(m0, m', d, kmap)
  {
    InKernelTables(kmap, i, v);
    OwedMore(|m0.free|, {}, m, m', d, v, KernelTables(kmap), 1);
  }

  /** Space d maps the kernel. */
  ghost predicate MapsKernel(m: Mem, d: nat, kmap: seq<Range>) {
    IsRoot(m, d) && forall v :: UPAGES <= v < VPAGES ==> Pte(m, d, v) == KernelEntry(kmap, |kmap|, v)
  }

  /** Then all tables of the kernel's ranges are there. */
  lemma KernelTablesThere(m: Mem, d: nat, kmap: seq<Range>)
    requires KmapOk(kmap) && MapsKernel(m, d, kmap)
    ensures KernelTables(kmap) <= Tables(m, d)
  {
    forall t | t in KernelTables(kmap) ensures t in Tables(m, d) {
      var i :| 0 <= i < |kmap| && Reaches(t, kmap[i].v, kmap[i].v + kmap[i].n);
      RangeMapped(m, d, kmap, i);
      TablesThere(m, d, kmap[i].v, kmap[i].v + kmap[i].n);
      assert t in TablesOf(kmap[i].v, kmap[i].v + kmap[i].n);
    }
  }

  lemma RangeMapped(m: Mem, d: nat, kmap: seq<Range>, i: nat)
    requires KmapOk(kmap) && MapsKernel(m, d, kmap) && i < |kmap|
    ensures forall v :: kmap[i].v <= v < kmap[i].v + kmap[i].n ==> v < VPAGES && Pte(m, d, v).Present?
  {
    forall v | kmap[i].v <= v < kmap[i].v + kmap[i].n ensures v < VPAGES && Pte(m, d, v).Present? {
      InsideRange(kmap, |kmap|, i, v);
    }
  }

  lemma {:induction false} InsideRange(kmap: seq<Range>, k: nat, i: nat, v: nat)
    requires i < k <= |kmap| && In(kmap[i], kmap[i].n, v)
    ensures KernelEntry(kmap, k, v).Present?
    decreases k
  {
    if i < k - 1 {
      InsideRange(kmap, k - 1, i, v);
    }
  }

  /** setupkvm() succeeds only with enough pages. */
  lemma KvmPaid(m0: Mem, m: Mem, d: nat, kmap: seq<Range>)
    requires KmapOk(kmap) && Laid(m0, m, d, kmap, |kmap|, 0) && KvmOwed(m0, m, d, kmap)
    ensures |m0.free| >= Need(kmap, 0)
  {
    KernelTablesThere(m, d, kmap);
    PaidInFull(|m0.free|, {}, m, d, KernelTables(kmap), 1);
    NeedOfNone(kmap, 0);
    assert KernelTables(kmap) - {} == KernelTables(kmap);
  }

  // ------------------------------------------------ copying

  /** Page v of d is a copy of page v of s as it was in m0. */
  ghost predicate CopyOf(m0: Mem, m: Mem, s: nat, d: nat, v: nat) {
    && IsRoot(m0, s) && IsRoot(m, d) && v < UPAGES && Pte(m0, s, v).Present? && Pte(m, d, v).Present?
    && Pte(m, d, v).flags == Pte(m0, s, v).flags && Pte(m, d, v).frame != Pte(m0, s, v).frame
    && Pte(m, d, v).frame < |m.pages| && Pte(m0, s, v).frame < |m0.pages|
    && m.pages[Pte(m, d, v).frame] == m0.pages[Pte(m0, s, v).frame]
  }

  /** copyuvm()'s loop has reached page k. */
  ghost predicate Copying(m0: Mem, m: Mem, s: nat, d: nat, kmap: seq<Range>, k: nat) {
    && Fresh(m0, m, d) && IsRoot(m0, s)
    && (forall v :: 0 <= v < k ==> CopyOf(m0, m, s, d, v))
    && (forall v :: 0 <= v < VPAGES && k <= v ==> Pte(m, d, v) == KernelEntry(kmap, |kmap|, v))
  }

  lemma CopyStarts(m0: Mem, m: Mem, s: nat, d: nat, kmap: seq<Range>)
    requires Laid(m0, m, d, kmap, |kmap|, 0) && IsRoot(m0, s)
    ensures Copying(m0, m, s, d, kmap, 0)
  {
  }

  /** The parent is as it was. */
  lemma ParentSame(m0: Mem, m: Mem, s: nat, d: nat, v: nat)
    requires Fresh(m0, m, d) && IsRoot(m0, s) && v < UPAGES && Pte(m0, s, v).Present?
    ensures s != d && IsRoot(m, s) && Pte(m, s, v) == Pte(m0, s, v)
    ensures Owns(m0, Pte(m0, s, v).frame, PageOf(s, v)) && Pte(m0, s, v).frame < |m.pages|
    ensures m.pages[Pte(m0, s, v).frame] == m0.pages[Pte(m0, s, v).frame]
  {
    assert RootOk(m0, s);
    assert InPool(m0, Pte(m0, s, v).frame);
  }

  /** A failed mapping: the page goes back, and everything else is as before it was taken. */
  lemma CopyGivesUp(m0: Mem, m: Mem, d: nat, f: nat, p: Page, m1: Mem, m2: Mem, m3: Mem)
    requires Fresh(m0, m, d) && m.free != [] && f == m.free[0] && f < |m.pages| && m1 == Take(m) &&
             m2 == WithPage(m1, f, p)
    requires m3 == Give(m2, f)
    ensures Fresh(m0, m3, d)
  {
    TakeKeeps(m, m1);
    PlainWrite(m1, f, p);
    GiveKeeps(m2, f, m3);
    assert m3.owner == m.owner;
  }

  /** The page taken for the copy, filled but not yet mapped. */
  lemma CopyTakes(m0: Mem, m: Mem, d: nat, f: nat, p: Page, m1: Mem, m2: Mem)
    requires Fresh(m0, m, d) && m.free != [] && f == m.free[0] && f < |m.pages| && m1 == Take(m) &&
             m2 == WithPage(m1, f, p)
    ensures Inv(m2) && SameView(m, m2) && Owns(m2, f, Loose) && f !in m.owner && f !in m0.owner &&
            m2.owner == m.owner[f := Loose]
  {
    TakeKeeps(m, m1);
    PlainWrite(m1, f, p);
  }

  lemma CopyOthers(m0: Mem, m: Mem, d: nat, k: nat, m2: Mem, m': Mem)
    requires OthersSame(m0, m, d) && SameView(m, m2) && SameBut(m2, m', d, k)
    ensures OthersSame(m0, m', d)
  {
  }

  lemma CopyOwners(m0: Mem, m: Mem, d: nat, k: nat, f: nat, flags: nat, m2: Mem, m': Mem)
    requires OnlyGrew(m0, m, d) && f !in m.owner && f !in m0.owner && m2.owner == m.owner[f := Loose] &&
             MapsPage(m2, m', d, k, f, flags)
    ensures forall g :: g in m0.owner ==> g in m'.owner && m'.owner[g] == m0.owner[g]
    ensures forall g :: g in m'.owner && g !in m0.owner ==> BelongsTo(g, m'.owner[g], d)
  {
  }

  lemma CopyFresh(m0: Mem, m: Mem, d: nat, k: nat, f: nat, p: Page, flags: nat, m1: Mem, m2: Mem, m': Mem)
    requires Fresh(m0, m, d) && m.free != [] && f == m.free[0] && f < |m.pages| && m1 == Take(m) &&
             m2 == WithPage(m1, f, p)
    requires MapsPage(m2, m', d, k, f, flags)
    ensures Fresh(m0, m', d)
  {
    CopyTakes(m0, m, d, f, p, m1, m2);
    CopyOthers(m0, m, d, k, m2, m');
    CopyOwners(m0, m, d, k, f, flags, m2, m');
    forall g | g in m0.owner && g < |m0.pages| && !TableFrame(m0, g) ensures m'.pages[g] == m0.pages[g] {
      assert g in m.owner && !TableFrame(m2, g) && g != f;
    }
  }

  /** The copies made so far stay as they are. */
  lemma CopyStays(m0: Mem, m: Mem, s: nat, d: nat, k: nat, f: nat, p: Page, flags: nat, m1: Mem, m2: Mem, m': Mem,
                  v: nat)
    requires Fresh(m0, m, d) && m.free != [] && f == m.free[0] && f < |m.pages| && m1 == Take(m) &&
             m2 == WithPage(m1, f, p)
    requires MapsPage(m2, m', d, k, f, flags) && CopyOf(m0, m, s, d, v) && v != k
    ensures CopyOf(m0, m', s, d, v)
  {
    CopyTakes(m0, m, d, f, p, m1, m2);
    var g := Pte(m, d, v).frame;
    assert RootOk(m, d);
    assert Owns(m, g, PageOf(d, v));
    assert Pte(m', d, v) == Pte(m2, d, v) == Pte(m, d, v);
  }

  lemma CopyOne(m0: Mem, m: Mem, s: nat, d: nat, kmap: seq<Range>, k: nat, next: nat, f: nat, e: Entry, p: Page,
                m1: Mem, m2: Mem, m': Mem)
    requires Copying(m0, m, s, d, kmap, k) && k < UPAGES && next == k + 1 && e == Pte(m0, s, k) && e.Present?
    requires m.free != [] && f == m.free[0] && f < |m.pages| && m1 == Take(m) && m2 == WithPage(m1, f, p)
    requires e.frame < |m0.pages| && p == m0.pages[e.frame] && MapsPage(m2, m', d, k, f, e.flags)
    ensures Copying(m0, m', s, d, kmap, next)
  {
    CopyTakes(m0, m, d, f, p, m1, m2);
    CopyFresh(m0, m, d, k, f, p, e.flags, m1, m2, m');
    ParentSame(m0, m, s, d, k);
    forall v | 0 <= v < next ensures CopyOf(m0, m', s, d, v) {
      if v < k {
        CopyStays(m0, m, s, d, k, f, p, e.flags, m1, m2, m', v);
      }
    }
    forall v | next <= v < VPAGES ensures Pte(m', d, v) == KernelEntry(kmap, |kmap|, v) {
      assert Pte(m', d, v) == Pte(m2, d, v) == Pte(m, d, v);
    }
  }

  /** The first of the pages below n that is not mapped in space s, n if there is none. */
  ghost function FirstHole(m: Mem, s: nat, n: nat): (h: nat)
    requires IsRoot(m, s) && n <= UPAGES
    ensures h <= n && (forall v :: 0 <= v < h ==> Pte(m, s, v).Present?) && (h < n ==> Pte(m, s, h) == Absent)
  {
    if n == 0 then 0
    else
      var h := FirstHole(m, s, n - 1);
      if h < n - 1 || Pte(m, s, n - 1) == Absent then h else n
  }

  /** What copyuvm() of n pages has taken when its loop has reached page k. */
  ghost predicate CopyOwed(m0: Mem, m: Mem, d: nat, kmap: seq<Range>, n: nat, k: nat) {
    Owed(|m0.free|, {}, m, d, AllTables(kmap, n), 1 + k)
  }

  lemma CopyOwedStarts(m0: Mem, m: Mem, d: nat, kmap: seq<Range>, n: nat)
    requires KvmOwed(m0, m, d, kmap)
    ensures CopyOwed(m0, m, d, kmap, n, 0)
  {
  }

  /** No page for the copy of page k. */
  lemma CopyShortOfPage(m0: Mem, m: Mem, d: nat, kmap: seq<Range>, n: nat, k: nat)
    requires KmapOk(kmap) && CopyOwed(m0, m, d, kmap, n, k) && m.free == [] && k < n <= UPAGES
    ensures |m0.free| < Need(kmap, n)
  {
    ShortOfPage(|m0.free|, {}, m, d, AllTables(kmap, n), 1 + k, 1 + n);
    NeedIsCost(kmap, n, 1 + n);
  }

  /** The page is taken. */
  lemma CopyOwedPage(m0: Mem, m: Mem, d: nat, kmap: seq<Range>, n: nat, k: nat, next: nat, f: nat, p: Page, m1: Mem,
                     m2: Mem)
    requires Inv(m) && CopyOwed(m0, m, d, kmap, n, k) && next == k + 1 && m.free != [] && f == m.free[0]
    requires f < |m.pages| && m1 == Take(m) && m2 == WithPage(m1, f, p)
    ensures CopyOwed(m0, m2, d, kmap, n, next)
  {
    assert f !in m.owner;
    OwedPage(|m0.free|, {}, m, m2, d, AllTables(kmap, n), 1 + k, 1 + next);
  }

  lemma CopyShortOfTable(m0: Mem, m: Mem, d: nat, kmap: seq<Range>, n: nat, k: nat, next: nat)
    requires KmapOk(kmap) && CopyOwed(m0, m, d, kmap, n, next) && NoTable(m, d, k) && k < n <= UPAGES && next == k + 1
    ensures |m0.free| < Need(kmap, n)
  {
    InTablesOf(0, n, k);
    ShortOfTable(|m0.free|, {}, m, d, k, AllTables(kmap, n), 1 + next, 1 + n);
    NeedIsCost(kmap, n, 1 + n);
  }

  lemma CopyOwedMore(m0: Mem, m: Mem, m': Mem, d: nat, kmap: seq<Range>, n: nat, k: nat, next: nat)
    requires CopyOwed(m0, m, d, kmap, n, next) && TableCost(m, m', d, k) && k < n <= UPAGES
    ensures CopyOwed(m0, m', d, kmap, n, next)
  {
    InTablesOf(0, n, k);
    OwedMore(|m0.free|, {}, m, m', d, k, AllTables(kmap, n), 1 + next);
  }

  /** copyuvm() succeeds only with enough pages. */
  lemma CopyPaid(m0: Mem, m: Mem, s: nat, d: nat, kmap: seq<Range>, n: nat)
    requires KmapOk(kmap) && n <= UPAGES && Copying(m0, m, s, d, kmap, n) && CopyOwed(m0, m, d, kmap, n, n)
    ensures |m0.free| >= Need(kmap, n)
  {
    KernelTablesThere(m, d, kmap);
    forall v | 0 <= v < n ensures Pte(m, d, v).Present? {
      assert CopyOf(m0, m, s, d, v);
    }
    TablesThere(m, d, 0, n);
    PaidInFull(|m0.free|, {}, m, d, AllTables(kmap, n), 1 + n);
    NeedIsCost(kmap, n, 1 + n);
  }

  /** Nothing has happened: the owners, the free pages as a set, every space and what user pages hold are as in m0. */
  ghost predicate Undone(m0: Mem, m: Mem) {
    && Inv(m) && m.owner == m0.owner && Elements(m.free) == Elements(m0.free) && UserPagesKept(m0, m)
    && (forall r :: IsRoot(m0, r) ==> IsRoot(m, r))
    && (forall r, v :: IsRoot(m0, r) && 0 <= v < VPAGES ==> IsRoot(m, r) && Pte(m, r, v) == Pte(m0, r, v))
  }

  lemma NothingUndone(m: Mem)
    requires Inv(m)
    ensures Undone(m, m)
  {
    KeptStarts(m);
  }

  lemma FreshUndone(m0: Mem, m: Mem, d: nat, m': Mem)
    requires Fresh(m0, m, d) && Freed(m, m', d) && UserPagesKept(m, m')
    ensures Undone(m0, m')
  {
    FreedUndoes(m0, m, d, m');
    FreshPagesKept(m0, m, d, m');
  }

  /** A space under construction has no page that was there before, so its end leaves those as they were. */
  lemma FreshPagesKept(m0: Mem, m: Mem, d: nat, m': Mem)
    requires Fresh(m0, m, d) && UserPagesKept(m, m')
    ensures UserPagesKept(m0, m')
  {
    forall f | f in m0.owner && m0.owner[f].PageOf? && Owns(m', f, m0.owner[f]) ensures SamePage(m0, m', f) {
      assert InPool(m0, f);
      assert m.owner[f] == m0.owner[f] && Owns(m, f, m0.owner[f]);
      assert SamePage(m, m', f) && !TableFrame(m0, f);
    }
  }
}

/** How many pages of physical memory it takes to map pages: one for each, and one for each table that is missing. */
module VmCost {
  import opened Counting
  import opened VmState
  import opened VmSpaces

  /** The tables that space s has, by directory entry. */
  ghost function Tables(m: Mem, s: nat): set<nat>
    requires IsRoot(m, s)
  {
    set d: nat | d < ENTRIES && Pde(m, s, d).Present?
  }

  /** Table d has entries of pages from a to b. */
  predicate Reaches(d: nat, a: nat, b: nat) {
    a < b && a < (d + 1) * ENTRIES && d * ENTRIES < b
  }

  /** The tables in which the pages from a to b have their entries. */
  function TablesOf(a: nat, b: nat): set<nat> {
    set d: nat | d < ENTRIES && Reaches(d, a, b)
  }

  /** The entry of page v needs a table, and there is no page for it. */
  ghost predicate NoTable(m: Mem, s: nat, v: nat)
    requires IsRoot(m, s)
  {
    m.free == [] && v / ENTRIES !in Tables(m, s)
  }

  /** An entry for page v has cost a page exactly if its table was not there. */
  ghost predicate TableCost(m: Mem, m': Mem, s: nat, v: nat) {
    && IsRoot(m, s) && IsRoot(m', s) && Tables(m', s) == Tables(m, s) + {v / ENTRIES}
    && |m'.free| + |Tables(m', s)| == |m.free| + |Tables(m, s)|
  }

  lemma NewTableCost(m: Mem, m1: Mem, s: nat, v: nat, d: nat, f: nat, flags: nat, m': Mem)
    requires IsRoot(m, s) && d == v / ENTRIES < ENTRIES && Pde(m, s, d) == Absent && m.free != [] && f == m.free[0]
    requires m1 == Take(m) && IsRoot(m1, s) && f < |m.pages| && f != s && m' == NewTable(m1, s, d, f, flags)
    ensures TableCost(m, m', s, v)
  {
    assert Tables(m', s) == Tables(m, s) + {d};
  }

  lemma NoTableCost(m: Mem, s: nat, v: nat)
    requires IsRoot(m, s) && v < VPAGES && Pde(m, s, v / ENTRIES).Present?
    ensures TableCost(m, m, s, v)
  {
    assert Tables(m, s) == Tables(m, s) + {v / ENTRIES};
  }

  /** Writing to a table, or changing owners, costs nothing. */
  lemma SameTables(m: Mem, m': Mem, s: nat)
    requires IsRoot(m, s) && IsRoot(m', s) && m'.pages[s] == m.pages[s]
    ensures Tables(m', s) == Tables(m, s)
  {
  }

  /**
   A space that had the tables t0 when `free0` pages were free has since taken k pages, and a page for each of its other
   tables, all of which are among `all`.
   */
  ghost predicate Owed(free0: nat, t0: set<nat>, m: Mem, s: nat, all: set<nat>, k: nat) {
    && IsRoot(m, s) && free0 + |t0| == |m.free| + |Tables(m, s)| + k
    && t0 <= Tables(m, s) <= t0 + all
  }

  /** The pages it takes to map `pages` pages whose entries are in the tables `all`. */
  ghost function Cost(t0: set<nat>, all: set<nat>, pages: nat): nat {
    pages + |all - t0|
  }

  lemma OwedMore(free0: nat, t0: set<nat>, m: Mem, m': Mem, s: nat, v: nat, all: set<nat>, k: nat)
    requires Owed(free0, t0, m, s, all, k) && TableCost(m, m', s, v) && v / ENTRIES in all
    ensures Owed(free0, t0, m', s, all, k)
  {
  }

  lemma OwedPage(free0: nat, t0: set<nat>, m: Mem, m': Mem, s: nat, all: set<nat>, k: nat, next: nat)
    requires Owed(free0, t0, m, s, all, k) && IsRoot(m', s) && m'.pages[s] == m.pages[s]
    requires |m.free| == |m'.free| + 1 && next == k + 1
    ensures Owed(free0, t0, m', s, all, next)
  {
    SameTables(m, m', s);
  }

  lemma AtMost(t0: set<nat>, t: set<nat>, all: set<nat>)
    requires t0 <= t <= t0 + all
    ensures |t| <= |t0| + |all - t0| && (all <= t ==> |t| == |t0| + |all - t0|)
  {
    SubsetSize(t - t0, all - t0);
    assert t == t0 + (t - t0);
    if all <= t {
      assert t - t0 == all - t0;
    }
  }

  /** Without a page for the next one, there were too few. */
  lemma ShortOfPage(free0: nat, t0: set<nat>, m: Mem, s: nat, all: set<nat>, k: nat, pages: nat)
    requires Owed(free0, t0, m, s, all, k) && m.free == [] && k < pages
    ensures free0 < Cost(t0, all, pages)
  {
    AtMost(t0, Tables(m, s), all);
  }

  lemma ShortOfTable(free0: nat, t0: set<nat>, m: Mem, s: nat, v: nat, all: set<nat>, k: nat, pages: nat)
    requires Owed(free0, t0, m, s, all, k) && NoTable(m, s, v) && v / ENTRIES in all && k <= pages
    ensures free0 < Cost(t0, all, pages)
  {
    var t, d := Tables(m, s), v / ENTRIES;
    AtMost(t0, t + {d}, all);
  }

  lemma PaidInFull(free0: nat, t0: set<nat>, m: Mem, s: nat, all: set<nat>, pages: nat)
    requires Owed(free0, t0, m, s, all, pages) && all <= Tables(m, s)
    ensures free0 >= Cost(t0, all, pages)
  {
    AtMost(t0, Tables(m, s), all);
  }

  lemma InTablesOf(a: nat, b: nat, v: nat)
    requires a <= v < b && v < VPAGES
    ensures v / ENTRIES in TablesOf(a, b)
  {
  }

  /** Mapped pages have their tables. */
  lemma TablesThere(m: Mem, s: nat, a: nat, b: nat)
    requires IsRoot(m, s) && b <= VPAGES && forall v :: a <= v < b ==> Pte(m, s, v).Present?
    ensures TablesOf(a, b) <= Tables(m, s)
  {
    forall d | d in TablesOf(a, b) ensures d in Tables(m, s) {
      var v := if a < d * ENTRIES then d * ENTRIES else a;
      assert v / ENTRIES == d;
      assert Pte(m, s, v).Present?;
    }
  }

  // ------------------------------------------------ allocuvm()

  /** What mapping the pages from a to b of space s takes: the pages, and the tables that are missing. */
  ghost function GrowCost(m: Mem, s: nat, a: nat, b: nat): nat
    requires IsRoot(m, s) && a <= b
  {
    Cost(Tables(m, s), TablesOf(a, b), b - a)
  }

  /** What allocuvm() for the pages from a to b has taken when it has reached page k. */
  ghost predicate GrowOwed(m0: Mem, m: Mem, s: nat, a: nat, b: nat, k: nat) {
    IsRoot(m0, s) && a <= k && Owed(|m0.free|, Tables(m0, s), m, s, TablesOf(a, b), k - a)
  }

  lemma GrowOwedStarts(m: Mem, s: nat, a: nat, b: nat)
    requires IsRoot(m, s)
    ensures GrowOwed(m, m, s, a, b, a)
  {
  }

  lemma GrowShortOfPage(m0: Mem, m: Mem, s: nat, a: nat, b: nat, k: nat)
    requires GrowOwed(m0, m, s, a, b, k) && m.free == [] && a <= k < b
    ensures |m0.free| < GrowCost(m0, s, a, b)
  {
    ShortOfPage(|m0.free|, Tables(m0, s), m, s, TablesOf(a, b), k - a, b - a);
  }

  lemma GrowOwedPage(m0: Mem, m: Mem, s: nat, a: nat, b: nat, k: nat, next: nat, f: nat, p: Page, m1: Mem, m2: Mem)
    requires Inv(m) && GrowOwed(m0, m, s, a, b, k) && next == k + 1 && m.free != [] && f == m.free[0]
    requires f < |m.pages| && m1 == Take(m) && m2 == WithPage(m1, f, p)
    ensures GrowOwed(m0, m2, s, a, b, next)
  {
    assert f !in m.owner;
    OwedPage(|m0.free|, Tables(m0, s), m, m2, s, TablesOf(a, b), k - a, next - a);
  }

  lemma GrowShortOfTable(m0: Mem, m: Mem, s: nat, a: nat, b: nat, k: nat, next: nat)
    requires GrowOwed(m0, m, s, a, b, next) && NoTable(m, s, k) && a <= k < b <= UPAGES && next == k + 1
    ensures |m0.free| < GrowCost(m0, s, a, b)
  {
    InTablesOf(a, b, k);
    ShortOfTable(|m0.free|, Tables(m0, s), m, s, k, TablesOf(a, b), next - a, b - a);
  }

  lemma GrowOwedMore(m0: Mem, m: Mem, m': Mem, s: nat, a: nat, b: nat, k: nat, next: nat)
    requires GrowOwed(m0, m, s, a, b, next) && TableCost(m, m', s, k) && a <= k < b <= UPAGES
    ensures GrowOwed(m0, m', s, a, b, next)
  {
    InTablesOf(a, b, k);
    OwedMore(|m0.free|, Tables(m0, s), m, m', s, k, TablesOf(a, b), next - a);
  }

  lemma GrowPaid(m0: Mem, m: Mem, s: nat, a: nat, b: nat, none: nat)
    requires Grown(m0, m, s, a, b, none) && GrowOwed(m0, m, s, a, b, b) && a <= b <= UPAGES
    ensures |m0.free| >= GrowCost(m0, s, a, b)
  {
    TablesThere(m, s, a, b);
    PaidInFull(|m0.free|, Tables(m0, s), m, s, TablesOf(a, b), b - a);
  }
}

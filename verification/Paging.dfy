/**
 The page allocator of one address space: the virtual-page bitmaps, the two pools of physical frames and
 the page directory with its tables. Addresses are page and frame numbers.
 */
module Paging {
  import opened Common
  import opened Bitmap
  import Volume

  datatype Flag = Kernel | User

  /** The bitmaps of physical frames, and the first frame of each. */
  datatype Pools = Pools(kstart: nat, kbits: seq<bool>, ustart: nat, ubits: seq<bool>)

  /** The bitmaps of virtual pages, and the first page of each. */
  datatype Ranges = Ranges(kstart: nat, kbits: seq<bool>, ustart: nat, ubits: seq<bool>)

  /** `others` are the frames of the pools that are in use outside this address space. */
  datatype Space = Space(pools: Pools, virt: Ranges, pde: map<nat, nat>, pte: map<nat, nat>, others: set<nat>)

  function PerTable(): nat { 1024 }

  // ---------------------------------------------------------------- addresses

  /** The first byte of a page. */
  function Address(p: nat): nat { 0x1000 * p }

  /** PDE_IDX and PTE_IDX: the top ten bits of a 32-bit address, and the ten below them. */
  function PdeIdx(addr: nat): nat { addr / 0x40_0000 }

  function PteIdx(addr: nat): nat { addr / 0x1000 % 0x400 }

  /** get_pte_ptr and get_pde_ptr: where an address's entries are seen through the last directory entry. */
  function PtePtr(addr: nat): nat { 0xFFC0_0000 + PdeIdx(addr) * 0x1000 + PteIdx(addr) * 4 }

  function PdePtr(addr: nat): nat { 0xFFFF_F000 + PdeIdx(addr) * 4 }

  /** Bytes [lo, hi) meet the 4 MB that one directory entry maps. */
  predicate Meets(lo: nat, hi: nat, d: nat) {
    lo < 0x40_0000 * (d + 1) && 0x40_0000 * d < hi
  }

  /** A page lies in the 4 MB of its directory entry, and its place in the table is its distance from their start. */
  lemma TableSpan(p: nat)
    ensures var d := p / PerTable(); 0x40_0000 * d <= Address(p) < Address(p + 1) <= 0x40_0000 * (d + 1)
    ensures PdeIdx(Address(p)) == p / PerTable()
    ensures Address(p) == 0x40_0000 * PdeIdx(Address(p)) + 0x1000 * PteIdx(Address(p))
  {
    var d, r := p / PerTable(), p % PerTable();
    assert p == 0x400 * d + r && Address(p) == 0x40_0000 * d + 0x1000 * r;
    TopBits(Address(p), d, 0x1000 * r);
    assert Address(p) / 0x1000 == p;
  }

  lemma TopBits(n: nat, q: nat, r: nat)
    requires n == 0x40_0000 * q + r && r < 0x40_0000
    ensures n / 0x40_0000 == q
  {
  }

  /** Two pages share a table exactly when no boundary of 4 MB lies between them. */
  lemma SharedTable(p: nat, q: nat)
    ensures p / PerTable() == q / PerTable() <==>
      exists d :: 0x40_0000 * d <= Address(p) < 0x40_0000 * (d + 1) && 0x40_0000 * d <= Address(q) < 0x40_0000 * (d + 1)
  {
    TableSpan(p);
    TableSpan(q);
  }

  /**
   The entry that maps the directory to itself: read as an address, the pointer to an entry goes through it to the
   table of the page and to the entry's four bytes there, and no two pages have the same pointer.
   */
  lemma SelfMap(p: nat, q: nat)
    requires p < 0x10_0000 && q < 0x10_0000
    ensures var a := PtePtr(Address(p));
      PdeIdx(a) == 0x3FF && PteIdx(a) == PdeIdx(Address(p)) && a % 0x1000 == 4 * PteIdx(Address(p)) && a < 0x1_0000_0000
    ensures var b := PdePtr(Address(p));
      PdeIdx(b) == 0x3FF && PteIdx(b) == 0x3FF && b % 0x1000 == 4 * PdeIdx(Address(p)) && b < 0x1_0000_0000
    ensures PtePtr(Address(p)) == PtePtr(Address(q)) <==> p == q
    ensures PtePtr(Address(p)) / 0x1000 == PtePtr(Address(q)) / 0x1000 <==> p / PerTable() == q / PerTable()
  {
    TableSpan(p);
    TableSpan(q);
    Slots(p);
    Slots(q);
  }

  lemma Slots(p: nat)
    requires p < 0x10_0000
    ensures PdeIdx(Address(p)) < 0x400 && PteIdx(Address(p)) < 0x400
    ensures PtePtr(Address(p)) == 0xFFC0_0000 + 4 * p
  {
    TableSpan(p);
  }

  /** The tables of a run of pages are the directory entries whose 4 MB its bytes meet. */
  lemma TablesMet(p: nat, n: nat)
    requires n > 0
    ensures forall d :: d in TablesOf(p, n) <==> Meets(Address(p), Address(p + n), d)
  {
    forall d: nat ensures d in TablesOf(p, n) <==> Meets(Address(p), Address(p + n), d) {
      TableSpan(p);
      TableSpan(p + n - 1);
      if d in TablesOf(p, n) {
        var q :| p <= q < p + n && d == q / PerTable();
        TableSpan(q);
      }
      if Meets(Address(p), Address(p + n), d) {
        var q := if p < PerTable() * d then PerTable() * d else p;
        TableSpan(q);
        assert p <= q < p + n && q / PerTable() == d;
      }
    }
  }

  // ---------------------------------------------------------------- what the fields mean

  predicate LayoutOk(s: Space) {
    && 0 < s.pools.kstart && s.pools.kstart + |s.pools.kbits| <= s.pools.ustart
    && 0 < s.virt.ustart && s.virt.ustart + |s.virt.ubits| <= s.virt.kstart
  }

  predicate PoolOf(b: Pools, pf: Flag, f: nat) {
    match pf
    case Kernel => b.kstart <= f < b.kstart + |b.kbits|
    case User => b.ustart <= f < b.ustart + |b.ubits|
  }

  predicate InPool(b: Pools, f: nat) { PoolOf(b, Kernel, f) || PoolOf(b, User, f) }

  /** The pool bit of a frame. */
  predicate Busy(b: Pools, f: nat) {
    (PoolOf(b, Kernel, f) && b.kbits[f - b.kstart]) || (PoolOf(b, User, f) && b.ubits[f - b.ustart])
  }

  predicate InRange(v: Ranges, pf: Flag, p: nat) {
    match pf
    case Kernel => v.kstart <= p < v.kstart + |v.kbits|
    case User => v.ustart <= p < v.ustart + |v.ubits|
  }

  /** The virtual bit of a page. */
  predicate Taken(v: Ranges, pf: Flag, p: nat) {
    InRange(v, pf, p) && if pf.Kernel? then v.kbits[p - v.kstart] else v.ubits[p - v.ustart]
  }

  // ---------------------------------------------------------------- the invariants

  /** An entry of the page tables or of the page directory. */
  datatype Entry = Page(p: nat) | Table(d: nat)

  ghost predicate Points(s: Space, e: Entry, f: nat) {
    match e
    case Page(p) => p in s.pte && s.pte[p] == f
    case Table(d) => d in s.pde && s.pde[d] == f
  }

  ghost predicate InUse(s: Space, f: nat) {
    (exists e :: Points(s, e, f)) || f in s.others
  }

  /** No frame of the pools has two entries, and the bits of the pools are exactly the frames in use. */
  ghost predicate Exact(s: Space) {
    && (forall e, g, f :: Points(s, e, f) && Points(s, g, f) && InPool(s.pools, f) ==> e == g)
    && (forall e, f :: Points(s, e, f) ==> f !in s.others)
    && (forall f :: InPool(s.pools, f) ==> (Busy(s.pools, f) <==> InUse(s, f)))
    && (forall f :: f in s.others ==> InPool(s.pools, f))
  }

  ghost predicate Frames(s: Space) {
    && LayoutOk(s) && Exact(s)
    && (forall p :: p in s.pte ==> p / PerTable() in s.pde)
  }

  /** A page of either range that is mapped has its bit set, and its frame comes from the pool of that range. */
  ghost predicate Covered(s: Space) {
    forall pf, p :: InRange(s.virt, pf, p) && p in s.pte ==> Taken(s.virt, pf, p) && PoolOf(s.pools, pf, s.pte[p])
  }

  ghost predicate Inv(s: Space) { Frames(s) && Covered(s) }

  /** Nothing is lost: every virtual bit that is set belongs to a mapped page. */
  ghost predicate Tight(s: Space) {
    forall pf, p :: Taken(s.virt, pf, p) ==> p in s.pte
  }

  // ---------------------------------------------------------------- single steps

  /** Sets or clears the pool bit of a frame. */
  function WithBusy(b: Pools, f: nat, value: bool): Pools
    requires InPool(b, f)
  {
    if PoolOf(b, User, f) then b.(ubits := b.ubits[f - b.ustart := value])
      else b.(kbits := b.kbits[f - b.kstart := value])
  }

  lemma WithBusyAt(b: Pools, f: nat, value: bool)
    requires b.kstart + |b.kbits| <= b.ustart && InPool(b, f)
    ensures var c := WithBusy(b, f, value);
      c.kstart == b.kstart && c.ustart == b.ustart && |c.kbits| == |b.kbits| && |c.ubits| == |b.ubits|
    ensures var c := WithBusy(b, f, value); forall g :: (Busy(c, g) <==> if g == f then value else Busy(b, g))
    ensures var c := WithBusy(b, f, value); forall pf, g :: PoolOf(c, pf, g) == PoolOf(b, pf, g)
    ensures var c := WithBusy(b, f, value); forall g :: InPool(c, g) == InPool(b, g)
  {
  }

  lemma PoolsKept(b: Pools, f: nat, value: bool)
    requires InPool(b, f)
    ensures forall g :: InPool(WithBusy(b, f, value), g) == InPool(b, g)
  {
  }

  function AddTable(s: Space, d: nat, t: nat): Space
    requires InPool(s.pools, t)
  {
    s.(pools := WithBusy(s.pools, t, true), pde := s.pde[d := t])
  }

  function AddPage(s: Space, p: nat, f: nat): Space
    requires InPool(s.pools, f)
  {
    s.(pools := WithBusy(s.pools, f, true), pte := s.pte[p := f])
  }

  function DropPage(s: Space, p: nat): Space
    requires p in s.pte && InPool(s.pools, s.pte[p])
  {
    s.(pools := WithBusy(s.pools, s.pte[p], false), pte := s.pte - {p})
  }

  ghost predicate SamePools(s: Space, z: Space) {
    z.others == s.others && forall g :: InPool(z.pools, g) == InPool(s.pools, g)
  }

  /** An entry that pointed nowhere takes a free frame. */
  lemma Gain(s: Space, z: Space, e: Entry, f: nat)
    requires Exact(s) && SamePools(s, z) && InPool(s.pools, f) && !Busy(s.pools, f) && forall g :: !Points(s, e, g)
    requires forall c, g :: Points(z, c, g) <==> Points(s, c, g) || (c == e && g == f)
    requires forall g :: InPool(s.pools, g) ==> (Busy(z.pools, g) <==> g == f || Busy(s.pools, g))
    ensures Exact(z)
  {
    hide Points, Busy;
    assert !InUse(s, f);
    forall g | InPool(z.pools, g) ensures Busy(z.pools, g) <==> InUse(z, g) {
      assert Points(z, e, f);
      assert InPool(s.pools, g) && (Busy(s.pools, g) <==> InUse(s, g));
      if c :| Points(s, c, g) { assert Points(z, c, g); }
    }
  }

  /** An entry lets its frame go. */
  lemma Lose(s: Space, z: Space, e: Entry, f: nat)
    requires Exact(s) && SamePools(s, z) && InPool(s.pools, f) && Points(s, e, f)
    requires forall c, g :: Points(z, c, g) <==> Points(s, c, g) && c != e
    requires forall g :: InPool(s.pools, g) ==> (Busy(z.pools, g) <==> g != f && Busy(s.pools, g))
    ensures Exact(z)
  {
    hide Busy, InPool;
    forall g | InPool(z.pools, g) ensures Busy(z.pools, g) <==> InUse(z, g) {
      assert InPool(s.pools, g) && (Busy(s.pools, g) <==> InUse(s, g));
      if c :| Points(s, c, g) && c != e { assert Points(z, c, g); }
    }
  }

  lemma AddTableKeeps(s: Space, d: nat, t: nat)
    requires Inv(s) && InPool(s.pools, t) && !Busy(s.pools, t) && d !in s.pde
    ensures Inv(AddTable(s, d, t))
  {
    hide Busy, InPool;
    WithBusyAt(s.pools, t, true);
    Gain(s, AddTable(s, d, t), Table(d), t);
  }

  lemma AddPageKeeps(s: Space, p: nat, f: nat)
    requires Inv(s) && InPool(s.pools, f) && !Busy(s.pools, f) && p !in s.pte && p / PerTable() in s.pde
    requires forall pf :: InRange(s.virt, pf, p) ==> Taken(s.virt, pf, p) && PoolOf(s.pools, pf, f)
    ensures Inv(AddPage(s, p, f))
  {
    hide Busy, InPool, PoolOf;
    WithBusyAt(s.pools, f, true);
    Gain(s, AddPage(s, p, f), Page(p), f);
  }

  lemma DropPageKeeps(s: Space, p: nat)
    requires Inv(s) && p in s.pte && InPool(s.pools, s.pte[p])
    ensures Inv(DropPage(s, p))
  {
    hide Busy, InPool, PoolOf;
    WithBusyAt(s.pools, s.pte[p], false);
    Lose(s, DropPage(s, p), Page(p), s.pte[p]);
  }

  /** With no frame left for a table, page_table_add installs the entry with frame 0. */
  lemma LostTableKeeps(s: Space, d: nat)
    requires Inv(s) && d !in s.pde
    ensures Inv(s.(pde := s.pde[d := 0]))
  {
    var z := s.(pde := s.pde[d := 0]);
    assert !InPool(s.pools, 0);
    assert forall e, f :: Points(z, e, f) <==> Points(s, e, f) || (e == Table(d) && f == 0);
    forall f | InPool(z.pools, f) ensures Busy(z.pools, f) <==> InUse(z, f) {
      assert InPool(s.pools, f) && (Busy(s.pools, f) <==> InUse(s, f));
      assert forall e :: Points(z, e, f) == Points(s, e, f);
    }
  }

  // ---------------------------------------------------------------- one page mapped

  /** One pass of the loop of malloc_page: leaf frame f, and frame t for the table if there is none yet. */
  function MapOne(s: Space, p: nat, f: nat, t: Maybe<nat>): Space
    requires InPool(s.pools, f) && (t.Just? ==> InPool(s.pools, t.value))
  {
    var d := p / PerTable();
    if d in s.pde then AddPage(s, p, f)
    else if t.Just? then (PoolsKept(s.pools, t.value, true); AddPage(AddTable(s, d, t.value), p, f))
    else AddPage(s.(pde := s.pde[d := 0]), p, f)
  }

  lemma MapOneKeeps(s: Space, pf: Flag, p: nat, f: nat, t: Maybe<nat>)
    requires Inv(s) && PoolOf(s.pools, pf, f) && !Busy(s.pools, f) && p !in s.pte && Taken(s.virt, pf, p)
    requires t.Just? ==> InPool(s.pools, t.value) && !Busy(s.pools, t.value) && t.value != f
    ensures Inv(MapOne(s, p, f, t))
  {
    hide Busy, PoolOf, Frames, Covered, Taken, InRange;
    OneRange(s, pf, p);
    var d := p / PerTable();
    if d in s.pde {
      LeafKeeps(s, pf, p, f);
    } else if t.Just? {
      AddTableKeeps(s, d, t.value);
      WithBusyAt(s.pools, t.value, true);
      LeafKeeps(AddTable(s, d, t.value), pf, p, f);
    } else {
      LostTableKeeps(s, d);
      LeafKeeps(s.(pde := s.pde[d := 0]), pf, p, f);
    }
  }

  lemma LeafKeeps(s: Space, pf: Flag, p: nat, f: nat)
    requires Inv(s) && InPool(s.pools, f) && PoolOf(s.pools, pf, f) && !Busy(s.pools, f) && p !in s.pte
    requires p / PerTable() in s.pde
    requires Taken(s.virt, pf, p)
    ensures Inv(AddPage(s, p, f))
  {
    hide Exact, Covered, Busy, PoolOf;
    AddPageKeeps(s, p, f);
  }

  lemma OneRange(s: Space, pf: Flag, p: nat)
    requires Inv(s)
    ensures s.pools.kstart + |s.pools.kbits| <= s.pools.ustart
  {
  }

  // ---------------------------------------------------------------- enough frames

  function Free(b: Pools, pf: Flag): nat {
    Volume.FreeCount(if pf.Kernel? then b.kbits else b.ubits)
  }

  lemma FreeTake(b: Pools, f: nat)
    requires b.kstart + |b.kbits| <= b.ustart && InPool(b, f) && !Busy(b, f)
    ensures forall pf :: Free(WithBusy(b, f, true), pf) == Free(b, pf) - if PoolOf(b, pf, f) then 1 else 0
  {
    if PoolOf(b, User, f) {
      Volume.FreeCountSet(b.ubits, f - b.ustart);
    } else {
      Volume.FreeCountSet(b.kbits, f - b.kstart);
    }
  }

  /** From b to c frames were only taken, in each pool the lowest free ones. */
  ghost predicate LowestTaken(b: Pools, c: Pools) {
    && SamePlaces(b, c) && (forall f :: Busy(b, f) ==> Busy(c, f))
    && forall pf, f: nat, g: nat :: PoolOf(b, pf, f) && PoolOf(b, pf, g) && f < g && !Busy(b, f) && Busy(c, g) ==>
         Busy(b, g) || Busy(c, f)
  }

  lemma LowestNone(b: Pools)
    ensures LowestTaken(b, b)
  {
    hide Busy, PoolOf;
  }

  lemma LowestStep(b: Pools, c: Pools, pf: Flag, f: nat)
    requires LowestTaken(b, c) && c.kstart + |c.kbits| <= c.ustart && PoolOf(c, pf, f)
    requires forall g: nat :: PoolOf(c, pf, g) && g < f ==> Busy(c, g)
    ensures InPool(c, f) && LowestTaken(b, WithBusy(c, f, true))
  {
    hide Busy;
    WithBusyAt(c, f, true);
  }

  /** How many page tables the pages from p on still need. */
  function Missing(tables: set<nat>, p: nat, n: nat): nat
    decreases n
  {
    if n == 0 then 0
    else if p / PerTable() in tables then Missing(tables, p + 1, n - 1)
    else 1 + Missing(tables + {p / PerTable()}, p + 1, n - 1)
  }

  lemma NoTables(p: nat)
    ensures TablesOf(p, 0) == {}
  {
  }

  lemma FewerTables(p: nat, n: nat)
    requires n > 0
    ensures TablesOf(p, n) == {p / PerTable()} + TablesOf(p + 1, n - 1)
  {
    forall d | d in TablesOf(p + 1, n - 1) ensures d in TablesOf(p, n) {
      var q :| p + 1 <= q < p + 1 + (n - 1) && d == q / PerTable();
      assert p <= q < p + n;
    }
    assert p <= p < p + n;
  }

  function TablesOf(p: nat, n: nat): set<nat> {
    set q | p <= q < p + n :: q / PerTable()
  }

  lemma {:induction false} MissingCounts(tables: set<nat>, p: nat, n: nat)
    ensures Missing(tables, p, n) == |TablesOf(p, n) - tables|
    decreases n
  {
    hide TablesOf;
    if n > 0 {
      var d := p / PerTable();
      var more := if d in tables then tables else tables + {d};
      MissingCounts(more, p + 1, n - 1);
      FewerTables(p, n);
      if d in tables {
        assert TablesOf(p, n) - tables == TablesOf(p + 1, n - 1) - tables;
      } else {
        assert TablesOf(p, n) - tables == {d} + (TablesOf(p + 1, n - 1) - more);
      }
    } else {
      NoTables(p);
      assert TablesOf(p, n) - tables == {};
    }
  }

  lemma {:induction false} Interval(s: set<nat>, lo: nat, hi: nat)
    requires lo <= hi && forall d: nat :: d in s <==> lo <= d < hi
    ensures |s| == hi - lo
    decreases hi
  {
    if lo < hi { Interval(s - {hi - 1}, lo, hi - 1); }
  }

  /** In a space without tables, a run of pages needs one for each 4 MB from its first byte to its last. */
  lemma FreshTables(p: nat, n: nat)
    requires n > 0
    ensures Missing({}, p, n) == PdeIdx(Address(p + n) - 1) - PdeIdx(Address(p)) + 1
  {
    hide TablesOf;
    MissingCounts({}, p, n);
    TablesMet(p, n);
    var lo, hi := PdeIdx(Address(p)), PdeIdx(Address(p + n) - 1);
    Interval(TablesOf(p, n) - {}, lo, hi + 1);
  }

  /** Frames for n pages, and for the page tables that are missing, which come from the kernel's pool. */
  predicate Enough(s: Space, pf: Flag, p: nat, n: nat) {
    var m := Missing(s.pde.Keys, p, n);
    match pf
    case Kernel => n + m <= Free(s.pools, Kernel)
    case User => n <= Free(s.pools, User) && m <= Free(s.pools, Kernel)
  }

  lemma EnoughStep(s: Space, pf: Flag, p: nat, n: nat, f: nat, t: Maybe<nat>)
    requires LayoutOk(s) && n > 0 && PoolOf(s.pools, pf, f) && !Busy(s.pools, f)
    requires t.Just? ==> PoolOf(s.pools, Kernel, t.value) && !Busy(s.pools, t.value) && t.value != f
    requires p / PerTable() in s.pde || t.Just?
    ensures InPool(s.pools, f) && (Enough(s, pf, p, n) <==> Enough(MapOne(s, p, f, t), pf, p + 1, n - 1))
  {
    hide Busy, Free;
    FreeTake(s.pools, f);
    var d := p / PerTable();
    if d !in s.pde {
      var b := WithBusy(s.pools, t.value, true);
      WithBusyAt(s.pools, t.value, true);
      FreeTake(s.pools, t.value);
      FreeTake(b, f);
      assert s.pde[d := t.value].Keys == s.pde.Keys + {d};
    }
  }

  lemma NoLeafLeft(s: Space, pf: Flag, p: nat, n: nat)
    requires n > 0 && Free(s.pools, pf) == 0
    ensures !Enough(s, pf, p, n)
  {
    hide Free;
  }

  lemma NoTableLeft(s: Space, pf: Flag, p: nat, n: nat, f: nat)
    requires LayoutOk(s) && n > 0 && PoolOf(s.pools, pf, f) && !Busy(s.pools, f) && p / PerTable() !in s.pde
    requires Free(WithBusy(s.pools, f, true), Kernel) == 0
    ensures !Enough(s, pf, p, n)
  {
    hide Busy, Free;
    FreeTake(s.pools, f);
  }

  // ---------------------------------------------------------------- several pages mapped

  predicate SamePlaces(b: Pools, c: Pools) {
    c.kstart == b.kstart && c.ustart == b.ustart && |c.kbits| == |b.kbits| && |c.ubits| == |b.ubits|
  }

  ghost predicate SameLayout(s: Space, c: Space) {
    c.virt == s.virt && c.others == s.others && SamePlaces(s.pools, c.pools)
  }

  /**
   Between s and c, pages [p, p + i) were mapped, each to a frame of the pool, and tables added where they were
   missing.
   */
  ghost predicate Progress(s: Space, c: Space, pf: Flag, p: nat, i: nat) {
    && SameLayout(s, c)
    && (forall q :: q in c.pte <==> q in s.pte || p <= q < p + i)
    && (forall q :: q in s.pte ==> c.pte[q] == s.pte[q])
    && (forall q :: p <= q < p + i ==> PoolOf(s.pools, pf, c.pte[q]))
    && (forall d :: d in c.pde <==> d in s.pde || d in TablesOf(p, i))
    && (forall d :: d in s.pde ==> c.pde[d] == s.pde[d])
    && (forall d :: d in c.pde && d !in s.pde ==> c.pde[d] == 0 || PoolOf(s.pools, Kernel, c.pde[d]))
  }

  lemma MapOneIs(s: Space, p: nat, f: nat, t: Maybe<nat>)
    requires LayoutOk(s) && InPool(s.pools, f) && (t.Just? ==> InPool(s.pools, t.value))
    ensures var z := MapOne(s, p, f, t);
      && SameLayout(s, z) && z.pte == s.pte[p := f]
      && z.pde == if p / PerTable() in s.pde then s.pde else s.pde[p / PerTable() := if t.Just? then t.value else 0]
  {
    hide Busy, PoolOf;
    WithBusyAt(s.pools, f, true);
    if t.Just? {
      WithBusyAt(s.pools, t.value, true);
      WithBusyAt(WithBusy(s.pools, t.value, true), f, true);
    }
  }

  lemma ProgressStep(s: Space, c: Space, pf: Flag, p: nat, i: nat, f: nat, t: Maybe<nat>)
    requires Progress(s, c, pf, p, i) && LayoutOk(c) && PoolOf(c.pools, pf, f) && p + i !in s.pte
    requires t.Just? ==> PoolOf(c.pools, Kernel, t.value)
    ensures InPool(c.pools, f) && Progress(s, MapOne(c, p + i, f, t), pf, p, i + 1)
  {
    hide Busy, MapOne, TablesOf;
    MapOneIs(c, p + i, f, t);
    MoreTables(p, i);
  }

  lemma MoreTables(p: nat, i: nat)
    ensures forall d :: d in TablesOf(p, i + 1) <==> d in TablesOf(p, i) || d == (p + i) / PerTable()
  {
    forall d | d in TablesOf(p, i) || d == (p + i) / PerTable() ensures d in TablesOf(p, i + 1) {
      if d in TablesOf(p, i) { var q :| p <= q < p + i && d == q / PerTable(); }
      assert p <= p + i < p + (i + 1);
    }
  }

  /** Every new table got a frame. */
  ghost predicate Backed(s: Space, c: Space) {
    forall d :: d in c.pde && d !in s.pde ==> PoolOf(c.pools, Kernel, c.pde[d])
  }

  function TakenRange(v: Ranges, pf: Flag, p: nat, n: nat, value: bool): Ranges
    requires if pf.Kernel? then v.kstart <= p && p + n <= v.kstart + |v.kbits|
           else v.ustart <= p && p + n <= v.ustart + |v.ubits|
  {
    if pf.Kernel? then v.(kbits := Marked(v.kbits, p - v.kstart, value, n))
    else v.(ubits := Marked(v.ubits, p - v.ustart, value, n))
  }

  /** Pages [p, p + n) exist in the range, and their bits are clear. */
  predicate FreeRange(v: Ranges, pf: Flag, p: nat, n: nat) {
    if pf.Kernel? then ClearRun(v.kbits, p - v.kstart, n) else ClearRun(v.ubits, p - v.ustart, n)
  }

  lemma TakenRangeAt(v: Ranges, pf: Flag, p: nat, n: nat, value: bool)
    requires v.ustart + |v.ubits| <= v.kstart
    requires if pf.Kernel? then v.kstart <= p && p + n <= v.kstart + |v.kbits|
           else v.ustart <= p && p + n <= v.ustart + |v.ubits|
    ensures var w := TakenRange(v, pf, p, n, value);
      && w.kstart == v.kstart && w.ustart == v.ustart && |w.kbits| == |v.kbits| && |w.ubits| == |v.ubits|
      && (forall r, q :: InRange(w, r, q) == InRange(v, r, q))
      && (forall r, q: nat :: Taken(w, r, q) <==> if p <= q < p + n && r == pf then value else Taken(v, r, q))
      && (forall r, q :: p <= q < p + n ==> (InRange(v, r, q) <==> r == pf))
  {
  }

  /** What a successful malloc_page has done. */
  ghost predicate Allocated(s: Space, z: Space, pf: Flag, p: nat, n: nat) {
    && FreeRange(s.virt, pf, p, n) && z.virt == TakenRange(s.virt, pf, p, n, true) && z.others == s.others
    && (forall q :: q in z.pte <==> q in s.pte || p <= q < p + n)
    && (forall q :: q in s.pte ==> z.pte[q] == s.pte[q])
    && (forall q :: p <= q < p + n ==> q !in s.pte && PoolOf(s.pools, pf, z.pte[q]) && !Busy(s.pools, z.pte[q]))
    && (forall q, r :: p <= q < r < p + n ==> z.pte[q] != z.pte[r])
    && (forall q, d :: p <= q < p + n && d in z.pde ==> z.pte[q] != z.pde[d])
    && (forall d :: d in z.pde <==> d in s.pde || d in TablesOf(p, n))
    && (forall d :: d in s.pde ==> z.pde[d] == s.pde[d])
    && (forall d :: d in z.pde && d !in s.pde && z.pde[d] != 0 ==>
          PoolOf(s.pools, Kernel, z.pde[d]) && !Busy(s.pools, z.pde[d]))
    && SamePlaces(s.pools, z.pools)
    && (forall f: nat :: InPool(s.pools, f) ==> (Busy(z.pools, f) <==>
          Busy(s.pools, f) || (exists q :: p <= q < p + n && z.pte[q] == f)
            || exists d :: d in z.pde && d !in s.pde && z.pde[d] == f))
  }


  /** The new frames were free before: a frame in use keeps its entry, and no frame has two. */
  lemma NewFrame(s: Space, z: Space, e: Entry, f: nat)
    requires Inv(s) && Inv(z) && SamePlaces(s.pools, z.pools) && z.others == s.others && InPool(s.pools, f)
    requires forall c, g :: Points(s, c, g) ==> Points(z, c, g)
    requires Points(z, e, f) && !Points(s, e, f)
    ensures !Busy(s.pools, f)
  {
    hide Busy, Points, Covered;
    SameInPool(s.pools, z.pools, f);
    forall c ensures !Points(s, c, f) { assert Points(s, c, f) ==> Points(z, c, f); }
  }

  lemma SameInPool(b: Pools, c: Pools, f: nat)
    requires SamePlaces(b, c)
    ensures InPool(b, f) == InPool(c, f) && forall pf :: PoolOf(b, pf, f) == PoolOf(c, pf, f)
  {
  }

  lemma AllocatedNow(s: Space, z: Space, pf: Flag, p: nat, n: nat)
    requires Inv(s) && Inv(z) && FreeRange(s.virt, pf, p, n) && (forall q :: p <= q < p + n ==> q !in s.pte)
    requires Progress(s.(virt := TakenRange(s.virt, pf, p, n, true)), z, pf, p, n)
    ensures Allocated(s, z, pf, p, n)
  {
    hide Busy, Frames, Covered, TablesOf, FreeRange, TakenRange;
    assert forall c, g :: Points(s, c, g) ==> Points(z, c, g);
    forall q | p <= q < p + n ensures PoolOf(s.pools, pf, z.pte[q]) && !Busy(s.pools, z.pte[q]) {
      NewFrame(s, z, Page(q), z.pte[q]);
    }
    forall d | d in z.pde && d !in s.pde && z.pde[d] != 0
      ensures PoolOf(s.pools, Kernel, z.pde[d]) && !Busy(s.pools, z.pde[d])
    {
      NewFrame(s, z, Table(d), z.pde[d]);
    }
    forall q, r | p <= q < r < p + n ensures z.pte[q] != z.pte[r] {
      Distinct(z, q, r);
    }
    forall q, d | p <= q < p + n && d in z.pde ensures z.pte[q] != z.pde[d] {
      Apart(z, q, d);
    }
    forall f: nat | InPool(s.pools, f) ensures Busy(z.pools, f) <==>
      Busy(s.pools, f) || (exists q :: p <= q < p + n && z.pte[q] == f)
        || exists d :: d in z.pde && d !in s.pde && z.pde[d] == f
    {
      BusyNow(s, z, p, n, f);
    }
  }

  lemma TablesAdded(s: Space, z: Space, pf: Flag, p: nat, n: nat)
    requires Allocated(s, z, pf, p, n) && n > 0
    ensures forall d :: d in z.pde <==> d in s.pde || Meets(Address(p), Address(p + n), d)
  {
    hide TablesOf, Meets;
    TablesMet(p, n);
  }

  lemma Distinct(z: Space, q: nat, r: nat)
    requires Inv(z) && q in z.pte && r in z.pte && q != r && InPool(z.pools, z.pte[q])
    ensures z.pte[q] != z.pte[r]
  {
    hide Busy, PoolOf;
    assert Points(z, Page(q), z.pte[q]) && Points(z, Page(r), z.pte[r]);
  }

  lemma Apart(z: Space, q: nat, d: nat)
    requires Inv(z) && q in z.pte && d in z.pde && InPool(z.pools, z.pte[q])
    ensures z.pte[q] != z.pde[d]
  {
    hide Busy, PoolOf;
    assert Points(z, Page(q), z.pte[q]) && Points(z, Table(d), z.pde[d]);
  }

  lemma BusyNow(s: Space, z: Space, p: nat, n: nat, f: nat)
    requires Inv(s) && Inv(z) && SamePlaces(s.pools, z.pools) && z.others == s.others && InPool(s.pools, f)
    requires forall c, g :: Points(s, c, g) ==> Points(z, c, g)
    requires (forall q :: q in s.pte ==> q in z.pte && z.pte[q] == s.pte[q])
    requires (forall d :: d in s.pde ==> d in z.pde && z.pde[d] == s.pde[d])
    requires forall q :: q in z.pte <==> q in s.pte || p <= q < p + n
    ensures Busy(z.pools, f) <==>
      Busy(s.pools, f) || (exists q :: p <= q < p + n && q in z.pte && z.pte[q] == f)
        || exists d :: d in z.pde && d !in s.pde && z.pde[d] == f
  {
    hide Busy, Covered, PoolOf;
    SameInPool(s.pools, z.pools, f);
    assert Busy(s.pools, f) <==> InUse(s, f);
    assert Busy(z.pools, f) <==> InUse(z, f);
    if e :| Points(z, e, f) {
      assert Points(s, e, f) || (e.Page? && p <= e.p < p + n && z.pte[e.p] == f)
        || (e.Table? && e.d !in s.pde && z.pde[e.d] == f);
    }
    if q :| p <= q < p + n && z.pte[q] == f { assert Points(z, Page(q), f); }
    if d :| d in z.pde && d !in s.pde && z.pde[d] == f { assert Points(z, Table(d), f); }
  }

  // ---------------------------------------------------------------- several pages given back

  /** What mfree_page does to a range of mapped pages. */
  ghost predicate Released(s: Space, z: Space, pf: Flag, p: nat, n: nat)
    requires if pf.Kernel? then s.virt.kstart <= p && p + n <= s.virt.kstart + |s.virt.kbits|
             else s.virt.ustart <= p && p + n <= s.virt.ustart + |s.virt.ubits|
  {
    && z.virt == TakenRange(s.virt, pf, p, n, false) && Dropped(s, z.(virt := s.virt), p, n)
  }

  /** The same before the virtual bits are cleared. */
  ghost predicate Dropped(s: Space, c: Space, p: nat, i: nat) {
    && SameLayout(s, c) && c.pde == s.pde
    && (forall q :: q in c.pte <==> q in s.pte && !(p <= q < p + i))
    && (forall q :: q in c.pte ==> c.pte[q] == s.pte[q])
    && (forall f: nat :: InPool(s.pools, f) ==>
          (Busy(c.pools, f) <==> Busy(s.pools, f) && forall q :: p <= q < p + i && q in s.pte ==> s.pte[q] != f))
  }

  lemma DropStep(s: Space, c: Space, p: nat, i: nat)
    requires Dropped(s, c, p, i) && LayoutOk(c) && p + i in c.pte && InPool(c.pools, c.pte[p + i])
    ensures Dropped(s, DropPage(c, p + i), p, i + 1)
  {
    hide Busy, PoolOf;
    WithBusyAt(c.pools, c.pte[p + i], false);
    forall f: nat | InPool(s.pools, f) ensures InPool(c.pools, f) { SameInPool(s.pools, c.pools, f); }
  }

  /** Clearing the bits of pages that are no longer mapped. */
  lemma UntakeKeeps(s: Space, pf: Flag, p: nat, n: nat)
    requires Inv(s) && forall q :: p <= q < p + n ==> q !in s.pte
    requires if pf.Kernel? then s.virt.kstart <= p && p + n <= s.virt.kstart + |s.virt.kbits|
             else s.virt.ustart <= p && p + n <= s.virt.ustart + |s.virt.ubits|
    ensures Inv(s.(virt := TakenRange(s.virt, pf, p, n, false)))
  {
    hide Busy, Taken, InRange, PoolOf, TakenRange;
    var z := s.(virt := TakenRange(s.virt, pf, p, n, false));
    TakenRangeAt(s.virt, pf, p, n, false);
    SamePoints(s, z);
  }

  lemma TakeKeeps(s: Space, pf: Flag, p: nat, n: nat)
    requires Inv(s) && FreeRange(s.virt, pf, p, n)
    ensures Inv(s.(virt := TakenRange(s.virt, pf, p, n, true)))
    ensures forall q :: p <= q < p + n ==> q !in s.pte && Taken(TakenRange(s.virt, pf, p, n, true), pf, q)
  {
    hide Busy, Taken, InRange, PoolOf, TakenRange;
    var z := s.(virt := TakenRange(s.virt, pf, p, n, true));
    TakenRangeAt(s.virt, pf, p, n, true);
    SamePoints(s, z);
    forall q | p <= q < p + n ensures q !in s.pte {
      FreePage(s.virt, pf, p, n, q);
    }
  }

  lemma FreePage(v: Ranges, pf: Flag, p: nat, n: nat, q: nat)
    requires FreeRange(v, pf, p, n) && p <= q < p + n
    ensures InRange(v, pf, q) && !Taken(v, pf, q)
  {
  }

  lemma SamePoints(s: Space, z: Space)
    requires z == s.(virt := z.virt) && Exact(s)
    ensures Exact(z)
  {
    hide Busy, PoolOf;
    assert forall e, f :: Points(z, e, f) == Points(s, e, f);
    forall f | InPool(z.pools, f) ensures Busy(z.pools, f) <==> InUse(z, f) {
      assert Busy(s.pools, f) <==> InUse(s, f);
      if e :| Points(s, e, f) { assert Points(z, e, f); }
    }
  }

  /** malloc_page and mfree_page of the same pages: all that stays are the page tables that were added. */
  lemma AllocateRelease(s: Space, a: Space, z: Space, pf: Flag, p: nat, n: nat)
    requires Inv(s) && Allocated(s, a, pf, p, n) && Released(a, z, pf, p, n)
    ensures z.virt == s.virt && z.pte == s.pte && z.others == s.others
    ensures forall d :: d in s.pde ==> d in z.pde && z.pde[d] == s.pde[d]
    ensures forall d :: d in z.pde <==> d in s.pde || d in TablesOf(p, n)
    ensures SamePlaces(s.pools, z.pools)
    ensures forall f: nat :: InPool(s.pools, f) ==>
      (Busy(z.pools, f) <==> Busy(s.pools, f) || exists d :: d in z.pde && d !in s.pde && z.pde[d] == f)
  {
    hide Busy, TablesOf, FreeRange, PoolOf;
    RangeBack(s.virt, pf, p, n);
    assert z.pte.Keys == s.pte.Keys;
    assert Dropped(a, z.(virt := a.virt), p, n);
    forall f: nat | InPool(s.pools, f)
      ensures Busy(z.pools, f) <==> Busy(s.pools, f) || exists d :: d in z.pde && d !in s.pde && z.pde[d] == f
    {
      BusyBack(s, a, z.(virt := a.virt), pf, p, n, f);
    }
  }

  lemma BusyBack(s: Space, a: Space, z: Space, pf: Flag, p: nat, n: nat, f: nat)
    requires Allocated(s, a, pf, p, n) && Dropped(a, z, p, n) && InPool(s.pools, f)
    ensures Busy(z.pools, f) <==> Busy(s.pools, f) || exists d :: d in z.pde && d !in s.pde && z.pde[d] == f
  {
    hide Busy, TablesOf, FreeRange, PoolOf;
    SameInPool(s.pools, a.pools, f);
    if Busy(s.pools, f) { assert forall q :: p <= q < p + n && q in a.pte ==> a.pte[q] != f; }
    if d :| d in z.pde && d !in s.pde && z.pde[d] == f {
      assert forall q :: p <= q < p + n && q in a.pte ==> a.pte[q] != a.pde[d];
    }
  }

  lemma RangeBack(v: Ranges, pf: Flag, p: nat, n: nat)
    requires FreeRange(v, pf, p, n)
    ensures TakenRange(TakenRange(v, pf, p, n, true), pf, p, n, false) == v
  {
    if pf.Kernel? { MarkedBack(v.kbits, p - v.kstart, n); } else { MarkedBack(v.ubits, p - v.ustart, n); }
  }

  // ---------------------------------------------------------------- the allocator itself

  class Memory {
    var pools: Pools
    var virt: Ranges
    var pde: map<nat, nat>
    var pte: map<nat, nat>
    const others: set<nat>

    function S(): Space
      reads this
    {
      Space(pools, virt, pde, pte, others)
    }

    constructor (s: Space)
      ensures S() == s
    {
      pools, virt, pde, pte, others := s.pools, s.virt, s.pde, s.pte, s.others;
    }

    /** vaddr_get: the first page of n whose bits it sets, or Nothing when there is no such run. */
    method VaddrGet(pf: Flag, n: nat) returns (r: Maybe<nat>)
      requires Inv(S())
      modifies this`virt
      ensures r.Nothing? ==> virt == old(virt) && forall p :: !FreeRange(virt, pf, p, n)
      ensures r.Just? ==> FreeRange(old(virt), pf, r.value, n) && virt == TakenRange(old(virt), pf, r.value, n, true)
      ensures r.Just? ==> forall p: nat :: p < r.value ==> !FreeRange(old(virt), pf, p, n)
    {
      var i := Search(if pf.Kernel? then virt.kbits else virt.ubits, n);
      if i == -1 { return Nothing; }
      if pf.Kernel? {
        virt := virt.(kbits := Marked(virt.kbits, i, true, n));
        r := Just(i + virt.kstart);
      } else {
        virt := virt.(ubits := Marked(virt.ubits, i, true, n));
        r := Just(i + virt.ustart);
      }
    }

    method Palloc(pf: Flag) returns (f: Maybe<nat>)
      requires pools.kstart + |pools.kbits| <= pools.ustart
      modifies this`pools
      ensures f.Nothing? <==> old(Free(pools, pf)) == 0
      ensures f.Nothing? ==> pools == old(pools)
      ensures f.Just? ==> PoolOf(old(pools), pf, f.value) && !Busy(old(pools), f.value)
      ensures f.Just? ==> forall g: nat :: PoolOf(old(pools), pf, g) && g < f.value ==> Busy(old(pools), g)
      ensures f.Just? ==> InPool(old(pools), f.value) && pools == WithBusy(old(pools), f.value, true)
    {
      var bits := if pf.Kernel? then pools.kbits else pools.ubits;
      var i := Search(bits, 1);
      Volume.FreeCountZero(bits);
      if i == -1 {
        assert forall k :: 0 <= k < |bits| ==> bits[k] || ClearRun(bits, k, 1);
        return Nothing;
      }
      assert !bits[i];
      forall k | 0 <= k < i ensures bits[k] { assert bits[k] || ClearRun(bits, k, 1); }
      if pf.Kernel? {
        pools := pools.(kbits := pools.kbits[i := true]);
        f := Just(i + pools.kstart);
      } else {
        pools := pools.(ubits := pools.ubits[i := true]);
        f := Just(i + pools.ustart);
      }
    }

    /** page_table_add; t is the frame it took for a new table. */
    method PageTableAdd(p: nat, f: nat) returns (ghost t: Maybe<nat>)
      requires pools.kstart + |pools.kbits| <= pools.ustart
      requires forall q :: q in pte ==> q / PerTable() in pde
      modifies this`pools, this`pde, this`pte
      ensures p in old(pte) ==> pte == old(pte) && pde == old(pde)
      ensures p !in old(pte) ==> pte == old(pte)[p := f]
      ensures p / PerTable() in old(pde) ==> t.Nothing? && pde == old(pde) && pools == old(pools)
      ensures p / PerTable() !in old(pde) ==>
        pde == old(pde)[p / PerTable() := if t.Just? then t.value else 0] && (t.Nothing? <==>
          old(Free(pools, Kernel)) == 0)
      ensures t.Nothing? ==> pools == old(pools)
      ensures t.Just? ==> PoolOf(old(pools), Kernel, t.value) && !Busy(old(pools), t.value)
      ensures t.Just? ==> InPool(old(pools), t.value) && pools == WithBusy(old(pools), t.value, true)
      ensures t.Just? ==> forall g: nat :: PoolOf(old(pools), Kernel, g) && g < t.value ==> Busy(old(pools), g)
    {
      hide Busy, Free;
      var d := p / PerTable();
      t := Nothing;
      if d in pde {
        if p in pte { return; }
        pte := pte[p := f];
      } else {
        var frame := Palloc(Kernel);
        t := frame;
        pde := pde[d := if frame.Just? then frame.value else 0];
        // the new table is cleared
        pte := map q | q in pte && q / PerTable() != d :: pte[q];
        assert pte == old(pte);
        pte := pte[p := f];
      }
    }

    /** malloc_page. `at` is the first page of the run that vaddr_get found. */
    method MallocPage(pf: Flag, cnt: nat) returns (r: Maybe<nat>, ghost at: nat)
      requires Inv(S())
      modifies this
      ensures Inv(S()) && Extends(old(S()), S()) && LowestTaken(old(pools), pools)
      ensures var n := if cnt == 0 then 1 else cnt;
        if forall p :: !FreeRange(old(virt), pf, p, n) then r.Nothing? && S() == old(S())
        else
          && FreeRange(old(virt), pf, at, n) && virt == TakenRange(old(virt), pf, at, n, true)
          && (forall p: nat :: p < at ==> !FreeRange(old(virt), pf, p, n))
          && (r.Just? ==> r.value == at && Allocated(old(S()), S(), pf, at, n))
          && (r.Just? ==> forall d :: d in pde <==> d in old(pde) || Meets(Address(at), Address(at + n), d))
          && (r.Just? && Backed(old(S()), S()) <==> old(Enough(S(), pf, at, n)))
          && (old(Tight(S())) ==> (Tight(S()) <==> r.Just?))
    {
      hide Inv, Busy, Enough, Free, TakenRange, FreeRange, Progress, Allocated, Backed, PoolOf, Extends, Tight,
           LowestTaken;
      var n := if cnt == 0 then 1 else cnt;
      at := 0;
      LowestNone(pools);
      var start := VaddrGet(pf, n);
      if start.Nothing? {
        NothingLost(S());
        return Nothing, at;
      }
      at := start.value;
      ghost var s, s1 := old(S()), S();
      TakeKeeps(s, pf, at, n);
      Begin(s, pf, at, n);
      var i := 0;
      while i < n
        invariant 0 <= i <= n && Inv(S()) && Progress(s1, S(), pf, at, i) && virt == s1.virt
        invariant Backed(s, S()) && Enough(S(), pf, at + i, n - i) <==> Enough(s, pf, at, n)
        invariant LowestTaken(s.pools, pools)
      {
        ghost var c := S();
        InvFacts(c);
        NextPage(s, s1, c, pf, at, i, n);
        var frame := Palloc(pf);
        if frame.Nothing? {
          NoLeafLeft(c, pf, at + i, n - i);
          Unmapped(c, pf, at + i);
          StillThere(s, c, pf, at, n, i);
          return Nothing, at;
        }
        LowestStep(s.pools, c.pools, pf, frame.value);
        ghost var b := pools;
        ghost var t := PageTableAdd(start.value + i, frame.value);
        if t.Just? { LowestStep(s.pools, b, Kernel, t.value); }
        OneMore(s, s1, c, S(), pf, at, i, n, frame.value, t);
        i := i + 1;
      }
      AllocatedNow(s, S(), pf, at, n);
      TablesAdded(s, S(), pf, at, n);
      StillThere(s, S(), pf, at, n, n);
      if Tight(s) { AllocatedTight(s, S(), pf, at, n); }
      Done(s, S(), pf, at + n);
      r := start;
    }

    /** pfree: frames below the pools cannot be given back. */
    method Pfree(f: nat)
      requires pools.kstart + |pools.kbits| <= pools.ustart && (f < pools.kstart || InPool(pools, f))
      modifies this`pools
      ensures f < old(pools.kstart) ==> pools == old(pools)
      ensures old(InPool(pools, f)) ==> pools == old(WithBusy(pools, f, false))
    {
      if pools.ustart <= f {
        pools := pools.(ubits := pools.ubits[f - pools.ustart := false]);
      } else if pools.kstart <= f {
        pools := pools.(kbits := pools.kbits[f - pools.kstart := false]);
      }
    }

    /** mfree_page; a first page without a frame of the pools is refused. */
    method MfreePage(pf: Flag, p: nat, n: nat)
      requires Inv(S()) && (p in pte && pools.kstart <= pte[p] ==> InPool(pools, pte[p]) && Whole(S(), pf, p, n))
      modifies this
      ensures Inv(S())
      ensures if p in old(pte) && old(pools).kstart <= old(pte)[p] then old(Whole(S(), pf, p, n))
        && Released(old(S()), S(), pf, p, n)
              else S() == old(S())
      ensures old(Tight(S())) ==> Tight(S())
    {
      hide Tight, Inv, Busy, TakenRange, Dropped, WithBusy;
      ghost var s := S();
      InvFacts(s);
      var frame := if p in pte then pte[p] else 0;
      PoolsStart(s);
      if frame < pools.kstart { return; }
      var i := 0;
      NoneDropped(s, p);
      while i < n
        invariant 0 <= i <= n && Inv(S()) && Dropped(s, S(), p, i) && LayoutOk(S())
      {
        ghost var c := S();
        StillMapped(s, c, pf, p, n, i);
        Pfree(pte[p + i]);
        pte := pte - {p + i};
        assert S() == DropPage(c, p + i);
        DropPageKeeps(c, p + i);
        DropStep(s, c, p, i);
        InvFacts(S());
        i := i + 1;
      }
      AllDropped(s, S(), p, n);
      UntakeKeeps(S(), pf, p, n);
      if pf.Kernel? {
        virt := virt.(kbits := Marked(virt.kbits, p - virt.kstart, false, n));
      } else {
        virt := virt.(ubits := Marked(virt.ubits, p - virt.ustart, false, n));
      }
      TakenIs(s.virt, pf, p, n);
      assert S().(virt := s.virt) == Space(pools, s.virt, pde, pte, others);
      if Tight(s) { ReleasedTight(s, S(), pf, p, n); }
    }
  }

  lemma TakenIs(v: Ranges, pf: Flag, p: nat, n: nat)
    requires if pf.Kernel? then v.kstart <= p && p + n <= v.kstart + |v.kbits|
           else v.ustart <= p && p + n <= v.ustart + |v.ubits|
    ensures pf.Kernel? ==> TakenRange(v, pf, p, n, false) == v.(kbits := Marked(v.kbits, p - v.kstart, false, n))
    ensures pf.User? ==> TakenRange(v, pf, p, n, false) == v.(ubits := Marked(v.ubits, p - v.ustart, false, n))
  {
  }

  lemma PoolsStart(s: Space)
    requires Inv(s)
    ensures 0 < s.pools.kstart
  {
  }

  lemma NoneDropped(s: Space, p: nat)
    ensures Dropped(s, s, p, 0)
  {
  }

  lemma AllDropped(s: Space, c: Space, p: nat, n: nat)
    requires Dropped(s, c, p, n)
    ensures c.virt == s.virt && forall q :: p <= q < p + n ==> q !in c.pte
  {
  }

  lemma StillMapped(s: Space, c: Space, pf: Flag, p: nat, n: nat, i: nat)
    requires Inv(s) && Inv(c) && Whole(s, pf, p, n) && Dropped(s, c, p, i) && i < n
    ensures p + i in c.pte && InPool(c.pools, c.pte[p + i])
  {
    hide Frames, Busy;
    assert InRange(c.virt, pf, p + i);
  }

  /** The pages of a range all exist, are taken and mapped. */
  ghost predicate Whole(s: Space, pf: Flag, p: nat, n: nat) {
    && (if pf.Kernel? then s.virt.kstart <= p && p + n <= s.virt.kstart + |s.virt.kbits|
        else s.virt.ustart <= p && p + n <= s.virt.ustart + |s.virt.ubits|)
    && forall q :: p <= q < p + n ==> q in s.pte
  }

  /** A page whose bit is set and that is not mapped is what a failed allocation loses. */
  lemma Unmapped(c: Space, pf: Flag, p: nat)
    requires Taken(c.virt, pf, p) && p !in c.pte
    ensures !Tight(c)
  {
  }

  lemma AllocatedTight(s: Space, z: Space, pf: Flag, p: nat, n: nat)
    requires Inv(s) && Allocated(s, z, pf, p, n) && Tight(s)
    ensures Tight(z)
  {
    hide Busy, PoolOf, TablesOf, Taken, TakenRange, InRange;
    TakenRangeAt(s.virt, pf, p, n, true);
  }

  lemma ReleasedTight(s: Space, z: Space, pf: Flag, p: nat, n: nat)
    requires Inv(s) && Whole(s, pf, p, n) && Released(s, z, pf, p, n) && Tight(s)
    ensures Tight(z)
  {
    hide Busy, PoolOf, Taken, TakenRange, InRange;
    TakenRangeAt(s.virt, pf, p, n, false);
    forall r, q: nat | Taken(z.virt, r, q) ensures q in z.pte {
      if p <= q < p + n && Taken(s.virt, r, q) { InsideRange(s, pf, p, n, r, q); }
    }
  }

  /** A taken page of the other range is not among the pages freed. */
  lemma InsideRange(s: Space, pf: Flag, p: nat, n: nat, r: Flag, q: nat)
    requires Inv(s) && Whole(s, pf, p, n) && Taken(s.virt, r, q) && p <= q < p + n
    ensures r == pf
  {
    hide Exact, Covered;
  }

  /** What was mapped stays mapped, to the same frame. */
  ghost predicate Extends(s: Space, z: Space) {
    && z.virt.kstart == s.virt.kstart && z.virt.ustart == s.virt.ustart
    && |z.virt.kbits| == |s.virt.kbits| && |z.virt.ubits| == |s.virt.ubits|
    && forall q :: q in s.pte ==> q in z.pte && z.pte[q] == s.pte[q]
  }

  lemma NothingLost(s: Space)
    ensures Extends(s, s)
  {
  }

  lemma StillThere(s: Space, z: Space, pf: Flag, p: nat, n: nat, i: nat)
    requires FreeRange(s.virt, pf, p, n) && Progress(s.(virt := TakenRange(s.virt, pf, p, n, true)), z, pf, p, i)
    ensures Extends(s, z)
  {
  }

  lemma InvFacts(s: Space)
    requires Inv(s)
    ensures s.pools.kstart + |s.pools.kbits| <= s.pools.ustart && LayoutOk(s)
    ensures forall q :: q in s.pte ==> q / PerTable() in s.pde
  {
  }

  lemma Begin(s: Space, pf: Flag, p: nat, n: nat)
    requires FreeRange(s.virt, pf, p, n)
    ensures var s1 := s.(virt := TakenRange(s.virt, pf, p, n, true));
      Progress(s1, s1, pf, p, 0) && Backed(s, s1) && (Enough(s1, pf, p, n) <==> Enough(s, pf, p, n))
  {
    NoTables(p);
  }

  lemma Done(s: Space, z: Space, pf: Flag, p: nat)
    ensures Enough(z, pf, p, 0)
  {
  }

  /** The next page of the run is not mapped yet, and its bit is set. */
  lemma NextPage(s: Space, s1: Space, c: Space, pf: Flag, p: nat, i: nat, n: nat)
    requires Inv(s) && FreeRange(s.virt, pf, p, n) && s1 == s.(virt := TakenRange(s.virt, pf, p, n, true))
    requires Progress(s1, c, pf, p, i) && i < n
    ensures p + i !in c.pte && p + i !in s1.pte && Taken(c.virt, pf, p + i)
  {
    hide Inv, PoolOf, TakenRange, FreeRange;
    TakeKeeps(s, pf, p, n);
  }

  /** The loop body of malloc_page did MapOne, with the leaf frame taken before the table's. */
  lemma OneMore(s: Space, s1: Space, c: Space, z: Space, pf: Flag, p: nat, i: nat, n: nat, f: nat, t: Maybe<nat>)
    requires Inv(c) && Progress(s1, c, pf, p, i) && i < n && p + i !in c.pte && p + i !in s1.pte
    requires Taken(c.virt, pf, p + i)
    requires s1 == s.(virt := s1.virt) && InPool(c.pools, f) && PoolOf(c.pools, pf, f) && !Busy(c.pools, f)
    requires var b := WithBusy(c.pools, f, true); var d := (p + i) / PerTable();
      && z.virt == c.virt && z.others == c.others && z.pte == c.pte[p + i := f]
      && (d in c.pde ==> t.Nothing? && z.pde == c.pde && z.pools == b)
      && (d !in c.pde ==> z.pde == c.pde[d := if t.Just? then t.value else 0] && (t.Nothing? <==> Free(b, Kernel) == 0))
      && (t.Nothing? ==> z.pools == b)
      && (t.Just? ==> PoolOf(b, Kernel, t.value) && !Busy(b, t.value))
      && (t.Just? ==> InPool(b, t.value) && z.pools == WithBusy(b, t.value, true))
    ensures Inv(z) && Progress(s1, z, pf, p, i + 1) && z.virt == c.virt
    ensures Backed(s, z) && Enough(z, pf, p + (i + 1), n - (i + 1)) <==> Backed(s, c) && Enough(c, pf, p + i, n - i)
  {
    hide Inv, Busy, Enough, Free, Progress, Backed, WithBusy;
    InvFacts(c);
    WithBusyAt(c.pools, f, true);
    Commute(c.pools, f, t);
    MapOneIs(c, p + i, f, t);
    assert z == MapOne(c, p + i, f, t);
    MapOneKeeps(c, pf, p + i, f, t);
    ProgressStep(s1, c, pf, p, i, f, t);
    if (p + i) / PerTable() in c.pde || t.Just? {
      EnoughStep(c, pf, p + i, n - i, f, t);
      StillBacked(s, s1, c, z, pf, p, i, t);
    } else {
      NoTableLeft(c, pf, p + i, n - i, f);
      LostTable(s, s1, c, z, pf, p, i);
    }
  }

  lemma Commute(b: Pools, f: nat, t: Maybe<nat>)
    requires b.kstart + |b.kbits| <= b.ustart && InPool(b, f) && t.Just? && PoolOf(b, Kernel, t.value) ==> t.value != f
    ensures b.kstart + |b.kbits| <= b.ustart && InPool(b, f) && t.Just? && PoolOf(b, Kernel, t.value) ==>
      InPool(WithBusy(b, f, true), t.value) && InPool(WithBusy(b, t.value, true), f)
      && WithBusy(WithBusy(b, f, true), t.value, true) == WithBusy(WithBusy(b, t.value, true), f, true)
  {
  }

  lemma StillBacked(s: Space, s1: Space, c: Space, z: Space, pf: Flag, p: nat, i: nat, t: Maybe<nat>)
    requires Progress(s1, c, pf, p, i) && SamePlaces(c.pools, z.pools)
    requires z.pde == c.pde
      || (t.Just? && PoolOf(c.pools, Kernel, t.value) && exists d: nat :: d !in c.pde && z.pde == c.pde[d := t.value])
    ensures Backed(s, z) <==> Backed(s, c)
  {
    forall d | d in c.pde ensures d in z.pde && z.pde[d] == c.pde[d] { }
  }

  lemma LostTable(s: Space, s1: Space, c: Space, z: Space, pf: Flag, p: nat, i: nat)
    requires Progress(s1, c, pf, p, i) && s1.pde == s.pde && 0 < z.pools.kstart
    requires (p + i) / PerTable() !in c.pde && z.pde == c.pde[(p + i) / PerTable() := 0]
    ensures !Backed(s, z)
  {
    assert z.pde[(p + i) / PerTable()] == 0;
  }
}

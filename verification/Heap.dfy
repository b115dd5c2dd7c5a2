/**
 The heap of one address space: arenas of one page cut into blocks of one size, the free list of each size,
 and large allocations of whole pages. Block addresses are byte addresses; an arena is known by its page.
 */
module Heap {
  import opened Common
  import opened Paging

  const PG_SIZE: nat := 4096
  const HEADER: nat := 12
  const DESC_CNT: nat := 7

  datatype Arena = Small(desc: nat, cnt: nat) | Large(cnt: nat)

  /** The free lists by descriptor, and the arenas by page. */
  datatype State = State(free: seq<seq<nat>>, arenas: map<nat, Arena>)

  function Size(d: nat): nat
    requires d < DESC_CNT
  {
    if d == 0 then 16 else if d == 1 then 32 else if d == 2 then 64 else if d == 3 then 128
    else if d == 4 then 256 else if d == 5 then 512 else 1024
  }

  function Per(d: nat): nat
    requires d < DESC_CNT
  {
    (PG_SIZE - HEADER) / Size(d)
  }

  /** arena2block and block2arena. */
  function Block(a: nat, d: nat, i: nat): nat
    requires d < DESC_CNT
  {
    PG_SIZE * a + HEADER + i * Size(d)
  }

  function PageOf(b: nat): nat { b / PG_SIZE }

  /** The address is that of some block of an arena with descriptor d. */
  predicate OnGrid(d: nat, b: nat)
    requires d < DESC_CNT
  {
    var o := b % PG_SIZE;
    HEADER <= o && (o - HEADER) % Size(d) == 0 && (o - HEADER) / Size(d) < Per(d)
  }

  function Index(d: nat, b: nat): nat
    requires d < DESC_CNT && OnGrid(d, b)
  {
    (b % PG_SIZE - HEADER) / Size(d)
  }

  lemma PerIs(d: nat)
    requires d < DESC_CNT
    ensures Per(d) == [255, 127, 63, 31, 15, 7, 3][d]
  {
  }

  lemma InPage(a: nat, o: nat)
    requires o < PG_SIZE
    ensures (PG_SIZE * a + o) / PG_SIZE == a && (PG_SIZE * a + o) % PG_SIZE == o
  {
  }

  lemma DivMul(i: nat, d: nat)
    requires d < DESC_CNT
    ensures i * Size(d) / Size(d) == i && i * Size(d) % Size(d) == 0
  {
    if d == 0 { assert i * 16 / 16 == i && i * 16 % 16 == 0; }
    else if d == 1 { assert i * 32 / 32 == i && i * 32 % 32 == 0; }
    else if d == 2 { assert i * 64 / 64 == i && i * 64 % 64 == 0; }
    else if d == 3 { assert i * 128 / 128 == i && i * 128 % 128 == 0; }
    else if d == 4 { assert i * 256 / 256 == i && i * 256 % 256 == 0; }
    else if d == 5 { assert i * 512 / 512 == i && i * 512 % 512 == 0; }
    else { assert i * 1024 / 1024 == i && i * 1024 % 1024 == 0; }
  }

  /** The blocks of an arena end before its page does. */
  lemma BlockFits(d: nat, i: nat)
    requires d < DESC_CNT && i < Per(d)
    ensures 0 <= i * Size(d) && i * Size(d) + Size(d) <= PG_SIZE - HEADER
  {
    PerIs(d);
  }

  /** Every block lies inside its page, behind the header, and is found again from its address. */
  lemma BlockPlace(a: nat, d: nat, i: nat)
    requires d < DESC_CNT && i < Per(d)
    ensures PageOf(Block(a, d, i)) == a && OnGrid(d, Block(a, d, i)) && Index(d, Block(a, d, i)) == i
    ensures PG_SIZE * a + HEADER <= Block(a, d, i) && Block(a, d, i) + Size(d) <= PG_SIZE * (a + 1)
  {
    hide Size, Per;
    SizePositive(d);
    BlockFits(d, i);
    var m := i * Size(d);
    DivMul(i, d);
    InPage(a, HEADER + m);
    assert Block(a, d, i) == PG_SIZE * a + (HEADER + m);
  }

  lemma SizePositive(d: nat)
    requires d < DESC_CNT
    ensures 16 <= Size(d) <= 1024
  {
  }

  lemma GridBlock(d: nat, b: nat)
    requires d < DESC_CNT && OnGrid(d, b)
    ensures Index(d, b) < Per(d) && Block(PageOf(b), d, Index(d, b)) == b
  {
  }

  lemma GridApart(d: nat, b: nat, c: nat)
    requires d < DESC_CNT && OnGrid(d, b) && OnGrid(d, c) && PageOf(b) == PageOf(c) && b < c
    ensures b + Size(d) <= c
  {
    hide OnGrid, Index, Size, Per;
    GridBlock(d, b);
    GridBlock(d, c);
    SizePositive(d);
    Order(Index(d, b), Index(d, c), d);
  }

  lemma Order(i: nat, j: nat, d: nat)
    requires d < DESC_CNT && i * Size(d) < j * Size(d)
    ensures i * Size(d) + Size(d) <= j * Size(d)
  {
    if d == 0 { assert i * 16 < j * 16; }
    else if d == 1 { assert i * 32 < j * 32; }
    else if d == 2 { assert i * 64 < j * 64; }
    else if d == 3 { assert i * 128 < j * 128; }
    else if d == 4 { assert i * 256 < j * 256; }
    else if d == 5 { assert i * 512 < j * 512; }
    else { assert i * 1024 < j * 1024; }
  }

  // ---------------------------------------------------------------- the invariant

  function Span(x: Arena): nat { if x.Small? then 1 else x.cnt }

  /** The free blocks of one arena. */
  function FreeOf(q: seq<nat>, a: nat): set<nat> {
    set b | b in q && PageOf(b) == a
  }

  ghost predicate ListOk(h: State, d: nat)
    requires d < DESC_CNT == |h.free|
  {
    && NoDup(h.free[d])
    && forall b :: b in h.free[d] ==>
         OnGrid(d, b) && PageOf(b) in h.arenas && h.arenas[PageOf(b)].Small? && h.arenas[PageOf(b)].desc == d
  }

  /** A block is live or on its free list, never both, and the counter is the number of free ones. */
  ghost predicate ArenaOk(h: State, live: set<nat>, a: nat)
    requires a in h.arenas && DESC_CNT == |h.free|
  {
    match h.arenas[a]
    case Small(d, cnt) =>
      && d < DESC_CNT
      && (forall b :: OnGrid(d, b) && PageOf(b) == a ==> (b in live <==> b !in h.free[d]))
      && (forall b :: b in live && PageOf(b) == a ==> OnGrid(d, b))
      && cnt == |FreeOf(h.free[d], a)|
    case Large(n) =>
      0 < n && forall b :: b in live && PageOf(b) == a <==> b == PG_SIZE * a + HEADER
  }

  ghost predicate Core(h: State, live: set<nat>) {
    && |h.free| == DESC_CNT
    && (forall d :: 0 <= d < DESC_CNT ==> ListOk(h, d))
    && (forall a :: a in h.arenas ==> ArenaOk(h, live, a))
    && (forall b :: b in live ==> PageOf(b) in h.arenas)
    && (forall a, c :: a in h.arenas && c in h.arenas && a < c ==> a + Span(h.arenas[a]) <= c)
  }

  /** No arena is wholly free. */
  ghost predicate Used(h: State) {
    forall a :: a in h.arenas && h.arenas[a].Small? && h.arenas[a].desc < DESC_CNT ==>
      h.arenas[a].cnt < Per(h.arenas[a].desc)
  }

  ghost predicate HeapInv(h: State, live: set<nat>) { Core(h, live) && Used(h) }

  /** The bytes a live block may use. */
  function Room(h: State, b: nat): nat
    requires PageOf(b) in h.arenas && (h.arenas[PageOf(b)].Small? ==> h.arenas[PageOf(b)].desc < DESC_CNT)
  {
    match h.arenas[PageOf(b)]
    case Small(d, _) => Size(d)
    case Large(n) => if n == 0 then 0 else PG_SIZE * n - HEADER
  }

  /** Live blocks do not overlap. */
  lemma LiveApart(h: State, live: set<nat>, b: nat, c: nat)
    requires Core(h, live) && b in live && c in live && b < c
    ensures PageOf(b) in h.arenas && PageOf(c) in h.arenas
    ensures ArenaOk(h, live, PageOf(b)) && ArenaOk(h, live, PageOf(c))
    ensures b + Room(h, b) <= c
  {
    hide OnGrid, ListOk, Size, Per;
    var x: nat, y: nat := PageOf(b), PageOf(c);
    assert ArenaOk(h, live, x) && ArenaOk(h, live, y);
    LiveInside(h, live, b);
    if x == y {
      if h.arenas[x].Small? { GridApart(h.arenas[x].desc, b, c); }
    } else {
      assert x < y && x + Span(h.arenas[x]) <= y;
    }
  }

  /** A live block lies within its arena's pages and behind its header. */
  lemma LiveInside(h: State, live: set<nat>, b: nat)
    requires Core(h, live) && b in live
    ensures PageOf(b) in h.arenas && ArenaOk(h, live, PageOf(b))
    ensures var a := PageOf(b); PG_SIZE * a + HEADER <= b && b + Room(h, b) <= PG_SIZE * (a + Span(h.arenas[a]))
  {
    var a := PageOf(b);
    assert ArenaOk(h, live, a);
    if h.arenas[a].Small? {
      GridBlock(h.arenas[a].desc, b);
      BlockPlace(a, h.arenas[a].desc, Index(h.arenas[a].desc, b));
    }
  }

  /** No live block touches the header of any arena. */
  lemma HeadersClear(h: State, live: set<nat>, b: nat, a: nat)
    requires Core(h, live) && b in live && a in h.arenas
    ensures PageOf(b) in h.arenas && ArenaOk(h, live, PageOf(b))
    ensures b + Room(h, b) <= PG_SIZE * a || PG_SIZE * a + HEADER <= b
  {
    hide OnGrid, ListOk, ArenaOk;
    LiveInside(h, live, b);
    var x: nat := PageOf(b);
    if a < x { assert a + Span(h.arenas[a]) <= x; }
    if x < a { assert x + Span(h.arenas[x]) <= a; }
  }

  // ---------------------------------------------------------------- counting blocks

  function Elems(q: seq<nat>): set<nat> {
    set b | b in q
  }

  lemma {:induction false} ElemsCount(q: seq<nat>)
    requires NoDup(q)
    ensures |Elems(q)| == |q|
  {
    if q != [] {
      var r := q[..|q| - 1];
      ElemsCount(r);
      assert q == r + [q[|q| - 1]];
      assert Elems(q) == Elems(r) + {q[|q| - 1]};
      assert forall i :: 0 <= i < |r| ==> r[i] == q[i];
    }
  }

  /** The blocks of an arena, in the order sys_malloc cuts them. */
  function Blocks(a: nat, d: nat): (q: seq<nat>)
    requires d < DESC_CNT
    ensures |q| == Per(d)
  {
    seq(Per(d), i requires 0 <= i < Per(d) => Block(a, d, i))
  }

  lemma BlocksAre(a: nat, d: nat)
    requires d < DESC_CNT
    ensures NoDup(Blocks(a, d)) && |Elems(Blocks(a, d))| == Per(d)
    ensures forall b :: b in Blocks(a, d) <==> OnGrid(d, b) && PageOf(b) == a
  {
    hide OnGrid, Index, Size, Per, Block, PageOf;
    var q := Blocks(a, d);
    forall i, j | 0 <= i < j < |q| ensures q[i] != q[j] {
      BlockPlace(a, d, i);
      BlockPlace(a, d, j);
    }
    ElemsCount(q);
    forall b ensures b in q <==> OnGrid(d, b) && PageOf(b) == a {
      if b in q {
        var i :| 0 <= i < |q| && q[i] == b;
        BlockPlace(a, d, i);
      }
      if OnGrid(d, b) && PageOf(b) == a {
        GridBlock(d, b);
        assert q[Index(d, b)] == b;
      }
    }
  }

  lemma SubsetCount(s: set<nat>, t: set<nat>)
    requires s <= t
    ensures |s| <= |t| && (|s| == |t| ==> s == t)
  {
    assert t == s + (t - s);
    if |s| == |t| { assert |t - s| == 0; }
  }

  /** The counter is at most the number of blocks, and reaches it only when every block is free. */
  lemma FullArena(h: State, live: set<nat>, a: nat, d: nat)
    requires Core(h, live) && a in h.arenas && h.arenas[a].Small? && h.arenas[a].desc == d && d < DESC_CNT
    ensures h.arenas[a].cnt <= Per(d)
    ensures h.arenas[a].cnt == Per(d) <==> forall b :: OnGrid(d, b) && PageOf(b) == a ==> b in h.free[d]
  {
    hide OnGrid, Index, Size, Per, Block, PageOf;
    var f, g := FreeOf(h.free[d], a), Elems(Blocks(a, d));
    assert ArenaOk(h, live, a) && ListOk(h, d);
    BlocksAre(a, d);
    SubsetCount(f, g);
    if f == g {
      forall b | OnGrid(d, b) && PageOf(b) == a ensures b in h.free[d] { assert b in g; }
    }
    if forall b :: OnGrid(d, b) && PageOf(b) == a ==> b in h.free[d] { assert g == f; }
  }

  // ---------------------------------------------------------------- steps on the free lists

  /** No arena reaches into pages [a, a + n), or is reached from them. */
  ghost predicate Clear(h: State, a: nat, n: nat) {
    forall c :: c in h.arenas ==> c != a && (c < a ==> c + Span(h.arenas[c]) <= a) && (a < c ==> a + n <= c)
  }

  function NewArena(h: State, a: nat, d: nat): State
    requires d < DESC_CNT == |h.free|
  {
    State(h.free[d := h.free[d] + Blocks(a, d)], h.arenas[a := Small(d, Per(d))])
  }

  /** The first free block of a size is handed out. */
  function Take(h: State, d: nat): State
    requires d < DESC_CNT == |h.free| && h.free[d] != []
  {
    var a := PageOf(h.free[d][0]);
    var cnt := if a in h.arenas then h.arenas[a].cnt else 0;
    State(h.free[d := h.free[d][1..]], h.arenas[a := Small(d, if cnt == 0 then 0 else cnt - 1)])
  }

  /** A block goes to the back of its free list. */
  function Give(h: State, b: nat): State
    requires |h.free| == DESC_CNT && PageOf(b) in h.arenas && h.arenas[PageOf(b)].Small?
    requires h.arenas[PageOf(b)].desc < DESC_CNT
  {
    var x := h.arenas[PageOf(b)];
    State(h.free[x.desc := h.free[x.desc] + [b]], h.arenas[PageOf(b) := x.(cnt := x.cnt + 1)])
  }

  /** The list without the elements of a set. */
  function Without(q: seq<nat>, s: set<nat>): (r: seq<nat>)
    ensures forall b :: b in r <==> b in q && b !in s
  {
    if q == [] then [] else (if q[0] in s then [] else [q[0]]) + Without(q[1..], s)
  }

  lemma {:induction false} WithoutNoDup(q: seq<nat>, s: set<nat>)
    requires NoDup(q)
    ensures NoDup(Without(q, s))
  {
    if q != [] {
      assert forall i :: 0 <= i < |q[1..]| ==> q[1..][i] == q[i + 1];
      WithoutNoDup(q[1..], s);
      assert q[0] !in q[1..];
    }
  }

  lemma {:induction false} WithoutTwice(q: seq<nat>, s: set<nat>, t: set<nat>)
    ensures Without(Without(q, s), t) == Without(q, s + t)
  {
    if q != [] {
      WithoutTwice(q[1..], s, t);
      WithoutPair(q[0], q[1..], s, t);
      assert q == [q[0]] + q[1..];
    }
  }

  lemma WithoutPair(b: nat, q: seq<nat>, s: set<nat>, t: set<nat>)
    requires Without(Without(q, s), t) == Without(q, s + t)
    ensures Without(Without([b] + q, s), t) == Without([b] + q, s + t)
  {
    hide Without;
    WithoutFirst(b, q, s);
    WithoutFirst(b, q, s + t);
    WithoutFirst(b, Without(q, s), t);
    if b in s { assert [] + Without(q, s) == Without(q, s); }
  }

  lemma WithoutFirst(b: nat, q: seq<nat>, s: set<nat>)
    ensures Without([b] + q, s) == (if b in s then [] else [b]) + Without(q, s)
  {
    assert ([b] + q)[1..] == q;
  }

  lemma {:induction false} WithoutNone(q: seq<nat>)
    ensures Without(q, {}) == q
  {
    if q != [] { WithoutNone(q[1..]); }
  }

  function DropArena(h: State, a: nat): State
    requires |h.free| == DESC_CNT && a in h.arenas && h.arenas[a].Small? && h.arenas[a].desc < DESC_CNT
  {
    var d := h.arenas[a].desc;
    State(h.free[d := Without(h.free[d], Elems(Blocks(a, d)))], h.arenas - {a})
  }

  /** An arena whose blocks, list and page are as before is still in order. */
  lemma OtherArena(h: State, k: State, live: set<nat>, more: set<nat>, c: nat)
    requires c in h.arenas && c in k.arenas && h.arenas[c] == k.arenas[c] && |h.free| == DESC_CNT == |k.free|
    requires ArenaOk(h, live, c)
    requires forall b :: PageOf(b) == c ==> (b in live <==> b in more)
    requires forall d :: 0 <= d < DESC_CNT ==> forall b :: PageOf(b) == c ==> (b in h.free[d] <==> b in k.free[d])
    ensures ArenaOk(k, more, c)
  {
    hide OnGrid, PageOf;
    if h.arenas[c].Small? {
      var d := h.arenas[c].desc;
      assert FreeOf(h.free[d], c) == FreeOf(k.free[d], c);
    }
  }

  lemma NewArenaKeeps(h: State, live: set<nat>, a: nat, d: nat)
    requires HeapInv(h, live) && d < DESC_CNT && Clear(h, a, 1)
    ensures Core(NewArena(h, a, d), live) && UsedBut(NewArena(h, a, d), a)
    ensures PageOf(Block(a, d, 0)) == a
  {
    hide OnGrid, PageOf, Per, Block, ArenaOk, ListOk;
    var k := NewArena(h, a, d);
    BlocksAre(a, d);
    PerIs(d);
    BlockPlace(a, d, 0);
    NewLists(h, live, a, d);
    NewArenaOk(h, live, a, d);
    forall c | c in k.arenas ensures ArenaOk(k, live, c) {
      if c != a { OtherArena(h, k, live, live, c); }
    }
  }

  ghost predicate UsedBut(h: State, a: nat) {
    forall c :: c in h.arenas && c != a && h.arenas[c].Small? && h.arenas[c].desc < DESC_CNT ==>
      h.arenas[c].cnt < Per(h.arenas[c].desc)
  }

  lemma NewLists(h: State, live: set<nat>, a: nat, d: nat)
    requires Core(h, live) && d < DESC_CNT && a !in h.arenas
    ensures forall e :: 0 <= e < DESC_CNT ==> ListOk(NewArena(h, a, d), e)
  {
    hide OnGrid, PageOf, Per, ArenaOk;
    var k := NewArena(h, a, d);
    BlocksAre(a, d);
    forall e | 0 <= e < DESC_CNT ensures ListOk(k, e) {
      assert ListOk(h, e);
      if e == d { NoDupAppend(h.free[d], Blocks(a, d)); }
    }
  }

  lemma NoDupAppend(q: seq<nat>, r: seq<nat>)
    requires NoDup(q) && NoDup(r) && forall b :: b in q ==> b !in r
    ensures NoDup(q + r)
  {
    forall i, j | 0 <= i < j < |q + r| ensures (q + r)[i] != (q + r)[j] {
      if i < |q| { assert (q + r)[i] in q; }
      if j >= |q| { assert (q + r)[j] in r; }
    }
  }

  lemma NewArenaOk(h: State, live: set<nat>, a: nat, d: nat)
    requires Core(h, live) && d < DESC_CNT && a !in h.arenas
    ensures ArenaOk(NewArena(h, a, d), live, a)
  {
    hide OnGrid, PageOf, Per, Block;
    var k := NewArena(h, a, d);
    BlocksAre(a, d);
    assert ListOk(h, d);
    assert FreeOf(k.free[d], a) == Elems(Blocks(a, d));
  }

  // ---------------------------------------------------------------- handing out

  lemma TakeFacts(h: State, live: set<nat>, d: nat)
    requires Core(h, live) && d < DESC_CNT && h.free[d] != []
    ensures var b := h.free[d][0];
      && b !in live && OnGrid(d, b) && b !in h.free[d][1..] && PageOf(b) in h.arenas
      && h.arenas[PageOf(b)] == Small(d, |FreeOf(h.free[d], PageOf(b))|)
      && FreeOf(h.free[d], PageOf(b)) == FreeOf(h.free[d][1..], PageOf(b)) + {b}
      && |FreeOf(h.free[d], PageOf(b))| == |FreeOf(h.free[d][1..], PageOf(b))| + 1
      && NoDup(h.free[d][1..])
  {
    hide OnGrid, PageOf;
    var q := h.free[d];
    var b := q[0];
    assert ListOk(h, d) && b in q;
    assert ArenaOk(h, live, PageOf(b));
    assert forall i :: 0 <= i < |q[1..]| ==> q[1..][i] == q[i + 1];
    assert forall c :: c in q <==> c == b || c in q[1..];
  }

  lemma TakeKeeps(h: State, live: set<nat>, d: nat)
    requires Core(h, live) && d < DESC_CNT && h.free[d] != [] && UsedBut(h, PageOf(h.free[d][0]))
    ensures h.free[d][0] !in live && HeapInv(Take(h, d), live + {h.free[d][0]})
  {
    hide OnGrid, PageOf, Per, ArenaOk, ListOk, FreeOf;
    var b := h.free[d][0];
    var k, more := Take(h, d), live + {b};
    TakeFacts(h, live, d);
    FullArena(h, live, PageOf(b), d);
    TakeLists(h, live, d);
    TakeArena(h, live, d);
    assert forall c :: c in h.free[d] <==> c == b || c in h.free[d][1..];
    forall c | c in k.arenas ensures ArenaOk(k, more, c) {
      if c != PageOf(b) { OtherArena(h, k, live, more, c); }
    }
  }

  lemma TakeLists(h: State, live: set<nat>, d: nat)
    requires Core(h, live) && d < DESC_CNT && h.free[d] != []
    ensures forall e :: 0 <= e < DESC_CNT ==> ListOk(Take(h, d), e)
  {
    hide OnGrid, PageOf, ArenaOk, FreeOf;
    TakeFacts(h, live, d);
    var k := Take(h, d);
    forall e | 0 <= e < DESC_CNT ensures ListOk(k, e) {
      assert ListOk(h, e) && ListOk(h, d);
      assert forall c :: c in h.free[d][1..] ==> c in h.free[d];
    }
  }

  lemma TakeArena(h: State, live: set<nat>, d: nat)
    requires Core(h, live) && d < DESC_CNT && h.free[d] != []
    ensures var b := h.free[d][0]; ArenaOk(Take(h, d), live + {b}, PageOf(b))
  {
    hide OnGrid, PageOf, FreeOf, ListOk;
    TakeFacts(h, live, d);
    var b := h.free[d][0];
    assert ArenaOk(h, live, PageOf(b));
    assert forall c :: c in h.free[d] <==> c == b || c in h.free[d][1..];
  }

  function AddLarge(h: State, a: nat, n: nat): State {
    h.(arenas := h.arenas[a := Large(n)])
  }

  lemma AddLargeKeeps(h: State, live: set<nat>, a: nat, n: nat)
    requires HeapInv(h, live) && 0 < n && Clear(h, a, n)
    ensures PG_SIZE * a + HEADER !in live && HeapInv(AddLarge(h, a, n), live + {PG_SIZE * a + HEADER})
  {
    hide OnGrid, ArenaOk, ListOk, Per;
    var b := PG_SIZE * a + HEADER;
    InPage(a, HEADER);
    var k, more := AddLarge(h, a, n), live + {b};
    forall d | 0 <= d < DESC_CNT ensures ListOk(k, d) { SameList(h, k, d); }
    forall c | c in k.arenas ensures ArenaOk(k, more, c) {
      if c != a { OtherArena(h, k, live, more, c); } else { LargeOk(h, k, live, a, n); }
    }
  }

  lemma SameList(h: State, k: State, d: nat)
    requires d < DESC_CNT == |h.free| == |k.free| && ListOk(h, d) && k.free[d] == h.free[d]
    requires forall a :: a in h.arenas ==> a in k.arenas && k.arenas[a] == h.arenas[a]
    ensures ListOk(k, d)
  {
    hide OnGrid, PageOf;
  }

  lemma LargeOk(h: State, k: State, live: set<nat>, a: nat, n: nat)
    requires Core(h, live) && 0 < n && a !in h.arenas && k == AddLarge(h, a, n)
    ensures ArenaOk(k, live + {PG_SIZE * a + HEADER}, a)
  {
    InPage(a, HEADER);
  }

  // ---------------------------------------------------------------- giving back

  lemma GiveKeeps(h: State, live: set<nat>, b: nat)
    requires HeapInv(h, live) && b in live && PageOf(b) in h.arenas && h.arenas[PageOf(b)].Small?
    ensures h.arenas[PageOf(b)].desc < DESC_CNT && OnGrid(h.arenas[PageOf(b)].desc, b)
    ensures b !in h.free[h.arenas[PageOf(b)].desc]
    ensures Core(Give(h, b), live - {b}) && UsedBut(Give(h, b), PageOf(b))
  {
    hide OnGrid, PageOf, Per, ArenaOk, ListOk, FreeOf;
    GiveFacts(h, live, b);
    var d := h.arenas[PageOf(b)].desc;
    var k, less := Give(h, b), live - {b};
    GiveLists(h, live, b);
    GiveArena(h, live, b);
    forall c | c in k.arenas ensures ArenaOk(k, less, c) {
      if c != PageOf(b) { OtherArena(h, k, live, less, c); }
    }
  }

  lemma GiveFacts(h: State, live: set<nat>, b: nat)
    requires Core(h, live) && b in live && PageOf(b) in h.arenas && h.arenas[PageOf(b)].Small?
    ensures var d := h.arenas[PageOf(b)].desc;
      && d < DESC_CNT && OnGrid(d, b) && b !in h.free[d]
      && FreeOf(h.free[d] + [b], PageOf(b)) == FreeOf(h.free[d], PageOf(b)) + {b}
      && |FreeOf(h.free[d] + [b], PageOf(b))| == |FreeOf(h.free[d], PageOf(b))| + 1
  {
    hide OnGrid, PageOf;
    assert ArenaOk(h, live, PageOf(b));
  }

  lemma GiveLists(h: State, live: set<nat>, b: nat)
    requires Core(h, live) && b in live && PageOf(b) in h.arenas && h.arenas[PageOf(b)].Small?
    ensures h.arenas[PageOf(b)].desc < DESC_CNT && forall e :: 0 <= e < DESC_CNT ==> ListOk(Give(h, b), e)
  {
    hide OnGrid, PageOf, ArenaOk, FreeOf;
    GiveFacts(h, live, b);
    var d := h.arenas[PageOf(b)].desc;
    forall e | 0 <= e < DESC_CNT ensures ListOk(Give(h, b), e) {
      assert ListOk(h, e);
      if e == d { NoDupAppend(h.free[d], [b]); }
    }
  }

  lemma GiveArena(h: State, live: set<nat>, b: nat)
    requires Core(h, live) && b in live && PageOf(b) in h.arenas && h.arenas[PageOf(b)].Small?
    ensures h.arenas[PageOf(b)].desc < DESC_CNT && ArenaOk(Give(h, b), live - {b}, PageOf(b))
  {
    hide OnGrid, PageOf, FreeOf, ListOk;
    GiveFacts(h, live, b);
    assert ArenaOk(h, live, PageOf(b));
  }

  /** The arena whose last live block came back leaves with exactly its own blocks. */
  lemma DropArenaKeeps(h: State, live: set<nat>, a: nat)
    requires Core(h, live) && UsedBut(h, a) && a in h.arenas && h.arenas[a].Small?
    requires h.arenas[a].desc < DESC_CNT && h.arenas[a].cnt == Per(h.arenas[a].desc)
    ensures HeapInv(DropArena(h, a), live)
    ensures var d := h.arenas[a].desc; forall b :: b in DropArena(h, a).free[d] <==> b in h.free[d] && PageOf(b) != a
    ensures var d := h.arenas[a].desc; forall b :: OnGrid(d, b) && PageOf(b) == a ==> b in h.free[d]
    ensures forall b :: b in live ==> PageOf(b) != a
  {
    hide OnGrid, PageOf, Per, ArenaOk, FreeOf, ListOk;
    var d := h.arenas[a].desc;
    var k := DropArena(h, a);
    FullArena(h, live, a, d);
    BlocksAre(a, d);
    assert ListOk(h, d);
    OnlyGrid(h, d);
    DropLive(h, live, a);
    forall e | 0 <= e < DESC_CNT ensures ListOk(k, e) { DropList(h, a, e); }
    forall c | c in k.arenas ensures ArenaOk(k, live, c) {
      OtherArena(h, k, live, live, c);
    }
  }

  lemma OnlyGrid(h: State, d: nat)
    requires d < DESC_CNT == |h.free| && ListOk(h, d)
    ensures forall b :: b in h.free[d] ==> OnGrid(d, b)
  {
  }

  lemma DropLive(h: State, live: set<nat>, a: nat)
    requires Core(h, live) && a in h.arenas && h.arenas[a].Small? && h.arenas[a].desc < DESC_CNT
    requires var d := h.arenas[a].desc; forall b :: OnGrid(d, b) && PageOf(b) == a ==> b in h.free[d]
    ensures forall b :: b in live ==> PageOf(b) != a
  {
    hide OnGrid, PageOf;
    assert ArenaOk(h, live, a);
  }

  lemma DropList(h: State, a: nat, e: nat)
    requires |h.free| == DESC_CNT && a in h.arenas && h.arenas[a].Small? && h.arenas[a].desc < DESC_CNT
    requires e < DESC_CNT && ListOk(h, e)
    ensures ListOk(DropArena(h, a), e)
  {
    hide OnGrid, PageOf, Per;
    var d := h.arenas[a].desc;
    BlocksAre(a, d);
    if e == d { WithoutNoDup(h.free[d], Elems(Blocks(a, d))); }
  }

  function DropLarge(h: State, a: nat): State {
    h.(arenas := h.arenas - {a})
  }

  lemma DropLargeKeeps(h: State, live: set<nat>, b: nat)
    requires HeapInv(h, live) && b in live && PageOf(b) in h.arenas && h.arenas[PageOf(b)].Large?
    ensures b == PG_SIZE * PageOf(b) + HEADER && HeapInv(DropLarge(h, PageOf(b)), live - {b})
  {
    hide OnGrid, PageOf, Per;
    var a := PageOf(b);
    assert ArenaOk(h, live, a);
    var k := DropLarge(h, a);
    forall c | c in k.arenas ensures ArenaOk(k, live - {b}, c) {
      assert ArenaOk(h, live, c);
      OtherArena(h, k, live, live - {b}, c);
    }
    forall e | 0 <= e < DESC_CNT ensures ListOk(k, e) { assert ListOk(h, e); }
  }

  // ---------------------------------------------------------------- every run

  /** The four things sys_malloc and sys_free can do to a heap; `a` is a page that malloc_page has just mapped. */
  datatype Op = Reuse(d: nat) | Carve(a: nat, d: nat) | Map(a: nat, n: nat) | Release(b: nat)

  ghost predicate Possible(h: State, live: set<nat>, op: Op) {
    && |h.free| == DESC_CNT
    && match op
       case Reuse(d) => d < DESC_CNT && h.free[d] != []
       case Carve(a, d) => d < DESC_CNT && h.free[d] == [] && Clear(h, a, 1)
       case Map(a, n) => 0 < n && Clear(h, a, n)
       case Release(b) => b in live && PageOf(b) in h.arenas && (h.arenas[PageOf(b)].Small? ==>
         h.arenas[PageOf(b)].desc < DESC_CNT)
  }

  /** What sys_free does to the lists and arenas. */
  function Freed(h: State, b: nat): State
    requires |h.free| == DESC_CNT && PageOf(b) in h.arenas
    requires (h.arenas[PageOf(b)].Small? ==> h.arenas[PageOf(b)].desc < DESC_CNT)
  {
    var a := PageOf(b);
    if h.arenas[a].Large? then DropLarge(h, a)
    else
      var k := Give(h, b);
      if k.arenas[a].cnt == Per(k.arenas[a].desc) then DropArena(k, a) else k
  }

  /** The heap after an operation, and the live blocks. */
  ghost function Apply(h: State, live: set<nat>, op: Op): (State, set<nat>)
    requires Possible(h, live, op)
  {
    match op
    case Reuse(d) => (Take(h, d), live + {h.free[d][0]})
    case Carve(a, d) => (PerIs(d); (Take(NewArena(h, a, d), d), live + {Block(a, d, 0)}))
    case Map(a, n) => (AddLarge(h, a, n), live + {PG_SIZE * a + HEADER})
    case Release(b) => (Freed(h, b), live - {b})
  }

  lemma NewArenaIs(h: State, a: nat, d: nat)
    requires d < DESC_CNT == |h.free| && h.free[d] == []
    ensures NewArena(h, a, d) == State(h.free[d := Blocks(a, d)], h.arenas[a := Small(d, Per(d))])
    ensures NewArena(h, a, d).free[d] != [] && NewArena(h, a, d).free[d][0] == Block(a, d, 0)
  {
    PerIs(d);
    assert [] + Blocks(a, d) == Blocks(a, d);
  }

  lemma InvUsedBut(h: State, live: set<nat>, a: nat)
    requires HeapInv(h, live)
    ensures Core(h, live) && UsedBut(h, a)
  {
  }

  lemma AllUsed(k: State, live: set<nat>, a: nat)
    requires Core(k, live) && UsedBut(k, a) && a in k.arenas && k.arenas[a].Small? && k.arenas[a].desc < DESC_CNT
    requires k.arenas[a].cnt != Per(k.arenas[a].desc)
    ensures HeapInv(k, live)
  {
    hide OnGrid, PageOf, Per, ArenaOk, ListOk, FreeOf;
    FullArena(k, live, a, k.arenas[a].desc);
  }

  /** Every operation keeps the invariant; what is handed out was not live. */
  lemma ApplyKeeps(h: State, live: set<nat>, op: Op)
    requires HeapInv(h, live) && Possible(h, live, op)
    ensures var (k, after) := Apply(h, live, op); HeapInv(k, after)
    ensures op.Reuse? ==> h.free[op.d][0] !in live
    ensures op.Carve? ==> Block(op.a, op.d, 0) !in live
    ensures op.Map? ==> PG_SIZE * op.a + HEADER !in live
  {
    hide HeapInv, PageOf, Per, Block, NewArena, Take, Give, AddLarge, DropLarge, DropArena;
    match op
    case Reuse(d) =>
      InvUsedBut(h, live, PageOf(h.free[d][0]));
      TakeKeeps(h, live, d);
    case Carve(a, d) =>
      NewArenaKeeps(h, live, a, d);
      NewArenaIs(h, a, d);
      TakeKeeps(NewArena(h, a, d), live, d);
    case Map(a, n) => AddLargeKeeps(h, live, a, n);
    case Release(b) => FreedKeeps(h, live, b);
  }

  lemma FreedKeeps(h: State, live: set<nat>, b: nat)
    requires HeapInv(h, live) && Possible(h, live, Release(b))
    ensures HeapInv(Freed(h, b), live - {b})
  {
    hide HeapInv, PageOf, Per;
    var a := PageOf(b);
    if h.arenas[a].Large? {
      DropLargeKeeps(h, live, b);
    } else {
      var k := Give(h, b);
      GiveKeeps(h, live, b);
      if k.arenas[a].cnt ==
        Per(k.arenas[a].desc) { DropArenaKeeps(k, live - {b}, a); } else { AllUsed(k, live - {b}, a); }
    }
  }

  ghost predicate PossibleRun(h: State, live: set<nat>, ops: seq<Op>)
    decreases |ops|
  {
    ops == []
      || (Possible(h, live, ops[0]) && var (k, after) := Apply(h, live, ops[0]); PossibleRun(k, after, ops[1..]))
  }

  ghost function Run(h: State, live: set<nat>, ops: seq<Op>): (State, set<nat>)
    requires PossibleRun(h, live, ops)
    decreases |ops|
  {
    if ops == [] then (h, live) else var (k, after) := Apply(h, live, ops[0]); Run(k, after, ops[1..])
  }

  lemma {:induction false} RunKeeps(h: State, live: set<nat>, ops: seq<Op>)
    requires HeapInv(h, live) && PossibleRun(h, live, ops)
    ensures var (k, after) := Run(h, live, ops); HeapInv(k, after)
    decreases |ops|
  {
    hide HeapInv, Apply, Possible;
    if ops != [] {
      ApplyKeeps(h, live, ops[0]);
      var (k, after) := Apply(h, live, ops[0]);
      RunKeeps(k, after, ops[1..]);
    }
  }

  function EmptyHeap(): State { State([[], [], [], [], [], [], []], map[]) }

  /** After any run from an empty heap, live blocks are disjoint, and no live block touches an arena's header. */
  lemma LiveBlocksSafe(ops: seq<Op>, b: nat, c: nat, a: nat)
    requires PossibleRun(EmptyHeap(), {}, ops)
    requires var (k, live) := Run(EmptyHeap(), {}, ops); b in live && c in live && b < c && a in k.arenas
    ensures var (k, live) := Run(EmptyHeap(), {}, ops);
      && PageOf(b) in k.arenas && (k.arenas[PageOf(b)].Small? ==> k.arenas[PageOf(b)].desc < DESC_CNT)
      && b + Room(k, b) <= c
      && (b + Room(k, b) <= PG_SIZE * a || PG_SIZE * a + HEADER <= b)
  {
    hide Run, PossibleRun, PageOf, Room, OnGrid;
    RunKeeps(EmptyHeap(), {}, ops);
    var (k, live) := Run(EmptyHeap(), {}, ops);
    LiveApart(k, live, b, c);
    HeadersClear(k, live, b, a);
  }

  // ---------------------------------------------------------------- the allocator

  /** All pages of all arenas are mapped. */
  ghost predicate Pages(h: State, m: Space, pf: Flag) {
    forall a :: a in h.arenas ==> Whole(m, pf, a, Span(h.arenas[a]))
  }

  lemma FreshClear(h: State, m: Space, z: Space, pf: Flag, a: nat, n: nat)
    requires Pages(h, m, pf) && Allocated(m, z, pf, a, n) && 0 < n
    requires forall c :: c in h.arenas ==> 0 < Span(h.arenas[c])
    ensures Clear(h, a, n)
  {
    hide FreeRange, TakenRange, TablesOf, Busy, PoolOf;
    forall c | c in h.arenas
      ensures c != a && (c < a ==> c + Span(h.arenas[c]) <= a) && (a < c ==> a + n <= c)
    {
      assert Whole(m, pf, c, Span(h.arenas[c]));
      assert c in m.pte && a !in m.pte;
    }
  }

  lemma PagesStay(h: State, m: Space, z: Space, pf: Flag)
    requires Pages(h, m, pf) && Extends(m, z)
    ensures Pages(h, z, pf)
  {
    forall a | a in h.arenas ensures Whole(z, pf, a, Span(h.arenas[a])) {
      assert Whole(m, pf, a, Span(h.arenas[a]));
    }
  }

  lemma NewWhole(m: Space, z: Space, pf: Flag, a: nat, n: nat)
    requires Allocated(m, z, pf, a, n)
    ensures Whole(z, pf, a, n)
  {
    hide TablesOf, Busy, PoolOf;
  }

  lemma Spans(h: State, live: set<nat>)
    requires Core(h, live)
    ensures forall c :: c in h.arenas ==> 0 < Span(h.arenas[c])
  {
    hide OnGrid, FreeOf, ListOk;
    forall c | c in h.arenas ensures 0 < Span(h.arenas[c]) { assert ArenaOk(h, live, c); }
  }

  /** A mapped page of the heap has a frame that can be given back. */
  lemma HeapPage(m: Space, pf: Flag, a: nat, n: nat)
    requires Paging.Inv(m) && Whole(m, pf, a, n) && 0 < n
    ensures a in m.pte && InPool(m.pools, m.pte[a]) && m.pools.kstart <= m.pte[a]
  {
    hide Exact, Busy;
    assert InRange(m.virt, pf, a);
  }

  lemma PagesLeft(h: State, k: State, m: Space, z: Space, pf: Flag, a: nat)
    requires Pages(h, m, pf) && a in h.arenas && Whole(m, pf, a, Span(h.arenas[a]))
    requires Released(m, z, pf, a, Span(h.arenas[a]))
    requires forall c :: c in k.arenas ==> c != a && c in h.arenas && Span(h.arenas[c]) == Span(k.arenas[c])
    requires forall c, e :: c in h.arenas && e in h.arenas && c < e ==> c + Span(h.arenas[c]) <= e
    ensures Pages(k, z, pf)
  {
    hide Busy;
    forall c | c in k.arenas ensures Whole(z, pf, c, Span(k.arenas[c])) {
      assert Whole(m, pf, c, Span(h.arenas[c]));
      assert c < a || a < c;
    }
  }

  function PickFrom(size: nat, d: nat): (r: nat)
    requires d < DESC_CNT
    ensures d <= r < DESC_CNT
    decreases DESC_CNT - d
  {
    if size <= Size(d) || d + 1 == DESC_CNT then d else PickFrom(size, d + 1)
  }

  /** The descriptor of a small request: the smallest block size that is enough. */
  lemma {:induction false} PickLeast(size: nat, d: nat)
    requires d < DESC_CNT && size <= 1024
    ensures size <= Size(PickFrom(size, d)) && forall e :: d <= e < PickFrom(size, d) ==> Size(e) < size
    decreases DESC_CNT - d
  {
    if size > Size(d) { PickLeast(size, d + 1); }
  }

  function PagesFor(size: nat): nat { (size + HEADER + PG_SIZE - 1) / PG_SIZE }

  lemma PagesEnough(size: nat)
    ensures 0 < PagesFor(size) && size <= PG_SIZE * PagesFor(size) - HEADER
    ensures PG_SIZE * (PagesFor(size) - 1) < size + HEADER
  {
  }

  ghost predicate Mappable(m: Space, pf: Flag, n: nat) {
    && (exists p :: FreeRange(m.virt, pf, p, n))
    && (forall p :: FreeRange(m.virt, pf, p, n) ==> Enough(m, pf, p, n))
  }

  class Allocator {
    const mem: Memory
    const pf: Flag
    const poolSize: nat
    var free: seq<seq<nat>>
    var arenas: map<nat, Arena>
    ghost var live: set<nat>

    function S(): State
      reads this
    {
      State(free, arenas)
    }

    ghost predicate Valid()
      reads this, mem
    {
      HeapInv(S(), live) && Paging.Inv(mem.S()) && Pages(S(), mem.S(), pf)
    }

    /** block_desk_init. */
    constructor (m: Memory, flag: Flag, limit: nat)
      requires Paging.Inv(m.S())
      ensures mem == m && pf == flag && poolSize == limit && Valid() && live == {}
      ensures S() == State([[], [], [], [], [], [], []], map[])
    {
      mem, pf, poolSize := m, flag, limit;
      free, arenas, live := [[], [], [], [], [], [], []], map[], {};
    }

    /** Splits the page of a new arena into blocks, all appended to the free list. */
    method Cut(a: nat, d: nat)
      requires |free| == DESC_CNT && d < DESC_CNT && free[d] == []
      modifies this`free
      ensures free == old(free)[d := Blocks(a, d)]
    {
      hide Block, Per, Size;
      var i := 0;
      while i < Per(d)
        invariant 0 <= i <= Per(d) && |free| == DESC_CNT && free == old(free)[d := Blocks(a, d)[..i]]
      {
        var b := Block(a, d, i);
        assert b !in free[d] by { NotCutYet(a, d, i); }
        assert Blocks(a, d)[..i + 1] == Blocks(a, d)[..i] + [b];
        free := free[d := free[d] + [b]];
        i := i + 1;
      }
      assert Blocks(a, d)[..i] == Blocks(a, d);
    }

    /** A new arena for a size without free blocks. */
    method AddArena(d: nat) returns (page: Maybe<nat>)
      requires Valid() && d < DESC_CNT == |free| && free[d] == []
      modifies this`free, this`arenas, mem
      ensures Paging.Inv(mem.S()) && Pages(S(), mem.S(), pf) && |free| == DESC_CNT
      ensures page.Nothing? ==> S() == old(S())
      ensures old(Mappable(mem.S(), pf, 1)) ==> page.Just?
      ensures page.Just? ==>
        && S() == NewArena(old(S()), page.value, d) && Core(S(), live) && UsedBut(S(), page.value)
        && Allocated(old(mem.S()), mem.S(), pf, page.value, 1)
        && free[d] != [] && free[d][0] == Block(page.value, d, 0) && PageOf(free[d][0]) == page.value
    {
      hide HeapInv, Pages, Allocated, OnGrid, PageOf, Per, Block, Size, Enough, FreeRange, NewArena, Core, UsedBut;
      ghost var h, m := S(), mem.S();
      ghost var at;
      page, at := mem.MallocPage(pf, 1);
      PagesStay(h, m, mem.S(), pf);
      if page.Nothing? { return; }
      FreshArena(h, live, m, mem.S(), pf, page.value, d);
      Cut(page.value, d);
      arenas := arenas[page.value := Small(d, Per(d))];
      NewArenaIs(h, page.value, d);
    }

    /** sys_malloc for a request of at most 1024 bytes. */
    method MallocSmall(size: nat) returns (r: Maybe<nat>)
      requires Valid() && size <= 1024
      modifies this, mem
      ensures Valid()
      ensures r.Nothing? ==> S() == old(S()) && live == old(live)
      ensures r.Just? ==> r.value !in old(live) && live == old(live) + {r.value}
      ensures |old(free)| == DESC_CNT
      ensures var d := PickFrom(size, 0);
        if old(free)[d] != [] then r == Just(old(free)[d][0]) && S() == Take(old(S()), d) && mem.S() == old(mem.S())
        else r.Just? ==> FromNew(old(S()), S(), old(mem.S()), mem.S(), pf, d, r.value)
      ensures old(free)[PickFrom(size, 0)] == [] && old(Mappable(mem.S(), pf, 1)) ==> r.Just?
    {
      hide HeapInv, Pages, Allocated, OnGrid, PageOf, Per, Block, Size, Mappable, NewArena, Core, UsedBut;
      ListsCount(S(), live);
      var d := 0;
      while d + 1 < DESC_CNT && size > Size(d)
        invariant 0 <= d < DESC_CNT && PickFrom(size, d) == PickFrom(size, 0)
      {
        d := d + 1;
      }
      if free[d] == [] {
        var got := AddArena(d);
        if got.Nothing? { return Nothing; }
      } else {
        InvUsedBut(S(), live, PageOf(free[d][0]));
      }
      TakeReady(S(), live, mem.S(), pf, d);
      var b := free[d][0];
      free := free[d := free[d][1..]];
      arenas := arenas[PageOf(b) := Small(d, arenas[PageOf(b)].cnt - 1)];
      live := live + {b};
      r := Just(b);
    }

    /** sys_malloc for a request of more than 1024 bytes. */
    method MallocLarge(size: nat) returns (r: Maybe<nat>)
      requires Valid()
      modifies this, mem
      ensures Valid()
      ensures r.Nothing? ==> S() == old(S()) && live == old(live)
      ensures r.Just? ==> r.value !in old(live) && live == old(live) + {r.value}
      ensures r.Just? ==> HEADER <= r.value && var a := PageOf(r.value);
        r.value == PG_SIZE * a + HEADER && S() == AddLarge(old(S()), a, PagesFor(size))
          && Allocated(old(mem.S()), mem.S(), pf, a, PagesFor(size))
      ensures old(Mappable(mem.S(), pf, PagesFor(size))) ==> r.Just?
    {
      hide HeapInv, Pages, Allocated, Enough, FreeRange, PagesFor;
      var n := PagesFor(size);
      PagesEnough(size);
      ghost var h, m := S(), mem.S();
      var got, at := mem.MallocPage(pf, n);
      PagesStay(h, m, mem.S(), pf);
      if got.Nothing? { return Nothing; }
      var a := got.value;
      FreshLarge(h, live, m, mem.S(), pf, a, n);
      arenas := arenas[a := Large(n)];
      live := live + {PG_SIZE * a + HEADER};
      InPage(a, HEADER);
      r := Just(PG_SIZE * a + HEADER);
    }

    method SysMalloc(request: nat) returns (r: Maybe<nat>)
      requires Valid()
      modifies this, mem
      ensures Valid()
      ensures r.Nothing? ==> S() == old(S()) && live == old(live)
      ensures r.Just? ==> r.value !in old(live) && live == old(live) + {r.value}
      ensures r.Just? ==>
        MallocDone(old(S()), S(), old(mem.S()), mem.S(), pf, if request == 0 then 1 else request, r.value)
      ensures r.Just? ==> HasRoom(S(), r.value, request) && forall b :: b in old(live) ==> RoomKept(old(S()), S(), b)
      ensures var size := if request == 0 then 1 else request;
        if size > poolSize then r.Nothing? && mem.S() == old(mem.S())
        else old(Serves(S(), mem.S(), pf, size)) ==> r.Just?
    {
      hide HeapInv, Pages, Allocated, OnGrid, PageOf, Per, Block, Enough, FreeRange, NewArena, FromNew, PagesFor, Take,
           AddLarge, Size, Room, Mappable;
      var size := if request == 0 then 1 else request;
      if size > poolSize { return Nothing; }
      ghost var h, l, m := S(), live, mem.S();
      ListsCount(h, l);
      if size > 1024 {
        r := MallocLarge(size);
        if r.Just? { LargeServed(h, l, m, mem.S(), pf, size, r.value); }
      } else {
        r := MallocSmall(size);
        if r.Just? { SmallServed(h, l, m, mem.S(), pf, size, S(), r.value); }
      }
    }

    /** Unlinks every block of an arena from its free list. */
    method Unlink(a: nat, d: nat)
      requires |free| == DESC_CNT && d < DESC_CNT
      modifies this`free
      ensures free == old(free)[d := Without(old(free)[d], Elems(Blocks(a, d)))]
    {
      hide Block, Per, Size, Without;
      ghost var q := free[d];
      var i := 0;
      WithoutNone(q);
      assert Elems(Blocks(a, d)[..0]) == {};
      while i < Per(d)
        invariant 0 <= i <= Per(d) && |free| == DESC_CNT && free == old(free)[d := Without(q, Elems(Blocks(a, d)[..i]))]
      {
        var b := Block(a, d, i);
        assert Blocks(a, d)[..i + 1] == Blocks(a, d)[..i] + [b];
        assert Elems(Blocks(a, d)[..i + 1]) == Elems(Blocks(a, d)[..i]) + {b};
        WithoutTwice(q, Elems(Blocks(a, d)[..i]), {b});
        free := free[d := Without(free[d], {b})];
        i := i + 1;
      }
      assert Blocks(a, d)[..i] == Blocks(a, d);
    }

    method SysFree(b: nat)
      requires Valid() && b in live
      modifies this, mem
      ensures Valid() && live == old(live) - {b}
      ensures FreeDone(old(S()), S(), old(mem.S()), mem.S(), pf, b)
      ensures forall c :: c in live ==> RoomKept(old(S()), S(), c)
    {
      hide HeapInv, Pages, PageOf, Per, Block, Size, Room, RoomKept, Released, Whole, OnGrid, ArenaOk, ListOk, Give,
           DropArena;
      var a := PageOf(b);
      ghost var h, l, m := S(), live, mem.S();
      LiveArena(h, live, b);
      live := live - {b};
      if arenas[a].Large? {
        DropLargeKeeps(h, l, b);
        LargeGone(h, m, pf, l, b);
        mem.MfreePage(pf, a, arenas[a].cnt);
        arenas := arenas - {a};
        PagesLeft(h, S(), m, mem.S(), pf, a);
        InvUsedBut(h, l, a);
        InvUsedBut(S(), live, a);
        SurvivorsKept(h, S(), l - {b}, l, a);
      } else {
        var d := arenas[a].desc;
        GiveKeeps(h, l, b);
        GiveIs(h, b);
        free := free[d := free[d] + [b]];
        arenas := arenas[a := arenas[a].(cnt := arenas[a].cnt + 1)];
        ghost var k := S();
        SameSpans(h, k, m, pf);
        InvUsedBut(h, l, a);
        LiveKept(h, k, l);
        if arenas[a].cnt == Per(d) {
          DropArenaKeeps(k, live, a);
          ArenaGone(k, m, pf, live, a);
          Unlink(a, d);
          mem.MfreePage(pf, a, 1);
          arenas := arenas - {a};
          DropIs(k, a);
          PagesLeft(k, S(), m, mem.S(), pf, a);
          InvUsedBut(S(), live, a);
          SurvivorsKept(k, S(), live, live, a);
          KeptTwice(h, k, S(), live);
        } else {
          AllUsed(k, live, a);
        }
      }
    }
  }

  /** How a request was served: from the front of a free list, from a new arena, or by whole pages. */
  ghost predicate MallocDone(h: State, k: State, m: Space, z: Space, pf: Flag, size: nat, b: nat) {
    && |h.free| == DESC_CNT
    && if size > 1024 then
         HEADER <= b && b == PG_SIZE * PageOf(b) + HEADER && k == AddLarge(h, PageOf(b), PagesFor(size))
         && Allocated(m, z, pf, PageOf(b), PagesFor(size))
       else
         var d := PickFrom(size, 0);
         if h.free[d] != [] then b == h.free[d][0] && k == Take(h, d) && z == m else FromNew(h, k, m, z, pf, d, b)
  }

  /** What sys_free of b does to the heap and its pages: an arena goes back whole, and only then. */
  ghost predicate FreeDone(h: State, k: State, m: Space, z: Space, pf: Flag, b: nat) {
    && |h.free| == DESC_CNT && PageOf(b) in h.arenas && (h.arenas[PageOf(b)].Small? ==>
          h.arenas[PageOf(b)].desc < DESC_CNT)
    && k == Freed(h, b)
    && (PageOf(b) in k.arenas ==> z == m)
    && (PageOf(b) !in k.arenas ==>
          var n := Span(h.arenas[PageOf(b)]);
          Whole(m, pf, PageOf(b), n) && Released(m, z, pf, PageOf(b), n))
  }

  /** The block is at least as large as the request. */
  ghost predicate HasRoom(h: State, b: nat, size: nat) {
    PageOf(b) in h.arenas && (h.arenas[PageOf(b)].Small? ==> h.arenas[PageOf(b)].desc < DESC_CNT) && size <= Room(h, b)
  }

  /** The block keeps its size. */
  ghost predicate RoomKept(h: State, k: State, b: nat) {
    && PageOf(b) in h.arenas && (h.arenas[PageOf(b)].Small? ==> h.arenas[PageOf(b)].desc < DESC_CNT)
    && HasRoom(k, b, Room(h, b)) && Room(k, b) == Room(h, b)
  }

  /** There is a free block of the right size, or the pages it takes can be mapped. */
  ghost predicate Serves(h: State, m: Space, pf: Flag, size: nat) {
    if size > 1024 then Mappable(m, pf, PagesFor(size))
    else |h.free| == DESC_CNT && (h.free[PickFrom(size, 0)] != [] || Mappable(m, pf, 1))
  }

  lemma LiveArena(h: State, live: set<nat>, b: nat)
    requires HeapInv(h, live) && b in live
    ensures |h.free| == DESC_CNT && PageOf(b) in h.arenas
    ensures (h.arenas[PageOf(b)].Small? ==> h.arenas[PageOf(b)].desc < DESC_CNT)
  {
    hide OnGrid, ListOk, PageOf;
    assert ArenaOk(h, live, PageOf(b));
  }

  lemma LargeGone(h: State, m: Space, pf: Flag, live: set<nat>, b: nat)
    requires HeapInv(h, live) && Pages(h, m, pf) && Paging.Inv(m) && b in live && PageOf(b) in h.arenas
    requires h.arenas[PageOf(b)].Large?
    ensures var a := PageOf(b);
      Whole(m, pf, a, h.arenas[a].cnt) && a in m.pte && InPool(m.pools, m.pte[a]) && m.pools.kstart <= m.pte[a]
    ensures forall c, e :: c in h.arenas && e in h.arenas && c < e ==> c + Span(h.arenas[c]) <= e
  {
    hide Paging.Inv, OnGrid, ListOk, PageOf, Whole;
    assert ArenaOk(h, live, PageOf(b));
    HeapPage(m, pf, PageOf(b), h.arenas[PageOf(b)].cnt);
  }

  lemma ArenaGone(k: State, m: Space, pf: Flag, live: set<nat>, a: nat)
    requires Core(k, live) && Pages(k, m, pf) && Paging.Inv(m) && a in k.arenas && k.arenas[a].Small?
    ensures Whole(m, pf, a, 1) && a in m.pte && InPool(m.pools, m.pte[a]) && m.pools.kstart <= m.pte[a]
    ensures forall c, e :: c in k.arenas && e in k.arenas && c < e ==> c + Span(k.arenas[c]) <= e
  {
    hide Paging.Inv, Whole, ArenaOk, ListOk;
    HeapPage(m, pf, a, 1);
  }

  lemma GiveIs(h: State, b: nat)
    requires |h.free| == DESC_CNT && PageOf(b) in h.arenas && h.arenas[PageOf(b)].Small?
    requires h.arenas[PageOf(b)].desc < DESC_CNT
    ensures var a := PageOf(b); var d := h.arenas[a].desc;
      Give(h, b) == State(h.free[d := h.free[d] + [b]], h.arenas[a := h.arenas[a].(cnt := h.arenas[a].cnt + 1)])
  {
  }

  lemma DropIs(k: State, a: nat)
    requires |k.free| == DESC_CNT && a in k.arenas && k.arenas[a].Small? && k.arenas[a].desc < DESC_CNT
    ensures var d := k.arenas[a].desc;
      DropArena(k, a) == State(k.free[d := Without(k.free[d], Elems(Blocks(a, d)))], k.arenas - {a})
  {
  }

  /** Live blocks of the other arenas keep their size. */
  lemma SurvivorsKept(h: State, k: State, left: set<nat>, live: set<nat>, a: nat)
    requires Core(h, live) && left <= live && Core(k, left) && k.arenas == h.arenas - {a}
    ensures forall b :: b in left ==> RoomKept(h, k, b)
  {
    hide OnGrid, ListOk, PageOf, FreeOf, Size;
    forall b | b in left ensures RoomKept(h, k, b) {
      assert ArenaOk(h, live, PageOf(b)) && PageOf(b) in k.arenas;
    }
  }

  lemma KeptTwice(h: State, k: State, j: State, live: set<nat>)
    requires forall b :: b in live ==> RoomKept(h, k, b) && RoomKept(k, j, b)
    ensures forall b :: b in live ==> RoomKept(h, j, b)
  {
    hide PageOf, Size, Room;
  }

  lemma FreshLarge(h: State, live: set<nat>, m: Space, z: Space, pf: Flag, a: nat, n: nat)
    requires HeapInv(h, live) && Pages(h, m, pf) && Allocated(m, z, pf, a, n) && Extends(m, z) && 0 < n
    ensures PG_SIZE * a + HEADER !in live && HeapInv(AddLarge(h, a, n), live + {PG_SIZE * a + HEADER})
    ensures Pages(AddLarge(h, a, n), z, pf)
  {
    hide Core, Used, Pages, Allocated, Extends, Whole;
    Spans(h, live);
    FreshClear(h, m, z, pf, a, n);
    AddLargeKeeps(h, live, a, n);
    PagesStay(h, m, z, pf);
    NewWhole(m, z, pf, a, n);
    PagesMore(h, AddLarge(h, a, n), z, pf, a);
  }

  lemma LiveKept(h: State, k: State, live: set<nat>)
    requires Core(h, live)
    requires forall c :: c in h.arenas ==> c in k.arenas && SameKind(h.arenas[c], k.arenas[c])
    ensures forall b :: b in live ==> RoomKept(h, k, b)
  {
    hide OnGrid, ListOk, PageOf, FreeOf;
    forall b | b in live ensures RoomKept(h, k, b) {
      assert ArenaOk(h, live, PageOf(b));
      assert SameKind(h.arenas[PageOf(b)], k.arenas[PageOf(b)]);
    }
  }

  predicate SameKind(x: Arena, y: Arena) {
    match x
    case Small(d, _) => y.Small? && y.desc == d
    case Large(n) => y == x
  }

  lemma LargeServed(h: State, live: set<nat>, m: Space, z: Space, pf: Flag, size: nat, b: nat)
    requires HeapInv(h, live) && Pages(h, m, pf) && HEADER <= b && b == PG_SIZE * PageOf(b) + HEADER
    requires Allocated(m, z, pf, PageOf(b), PagesFor(size))
    ensures var k := AddLarge(h, PageOf(b), PagesFor(size));
      HasRoom(k, b, size) && forall c :: c in live ==> RoomKept(h, k, c)
  {
    hide Core, Pages, Allocated, PageOf, PagesFor;
    PagesEnough(size);
    Spans(h, live);
    FreshClear(h, m, z, pf, PageOf(b), PagesFor(size));
    LiveKept(h, AddLarge(h, PageOf(b), PagesFor(size)), live);
  }

  lemma SmallServed(h: State, live: set<nat>, m: Space, z: Space, pf: Flag, size: nat, k: State, b: nat)
    requires HeapInv(h, live) && Pages(h, m, pf) && size <= 1024 && |h.free| == DESC_CNT
    requires var d := PickFrom(size, 0);
      if h.free[d] != [] then b == h.free[d][0] && k == Take(h, d) else FromNew(h, k, m, z, pf, d, b)
    ensures HasRoom(k, b, size) && forall c :: c in live ==> RoomKept(h, k, c)
  {
    hide Core, Pages, Allocated, PageOf, Size, Block, NewArena, OnGrid, FreeOf, Per;
    var d := PickFrom(size, 0);
    PickLeast(size, 0);
    if h.free[d] != [] {
      TakeFacts(h, live, d);
    } else {
      Spans(h, live);
      FreshClear(h, m, z, pf, PageOf(b), 1);
      NewArenaIs(h, PageOf(b), d);
    }
    LiveKept(h, k, live);
  }

  lemma NotCutYet(a: nat, d: nat, i: nat)
    requires d < DESC_CNT && i < Per(d)
    ensures Block(a, d, i) !in Blocks(a, d)[..i]
  {
    hide Block, Per, Size;
    BlocksAre(a, d);
    assert Blocks(a, d)[i] == Block(a, d, i);
  }

  lemma ListsCount(h: State, live: set<nat>)
    requires HeapInv(h, live)
    ensures |h.free| == DESC_CNT
  {
  }

  lemma CoreCount(h: State, live: set<nat>)
    requires Core(h, live)
    ensures |h.free| == DESC_CNT
  {
  }

  /** A request served from a page mapped for it: the first block of a new arena. */
  ghost predicate FromNew(h: State, k: State, m: Space, z: Space, pf: Flag, d: nat, b: nat)
    requires d < DESC_CNT == |h.free| && h.free[d] == []
  {
    var a := PageOf(b);
    b == Block(a, d, 0) && Allocated(m, z, pf, a, 1) && NewArena(h, a, d).free[d] != []
      && k == Take(NewArena(h, a, d), d)
  }

  lemma FreshArena(h: State, live: set<nat>, m: Space, z: Space, pf: Flag, a: nat, d: nat)
    requires HeapInv(h, live) && d < DESC_CNT == |h.free| && Pages(h, m, pf) && Allocated(m, z, pf, a, 1)
    requires Extends(m, z)
    ensures Core(NewArena(h, a, d), live) && UsedBut(NewArena(h, a, d), a) && Pages(NewArena(h, a, d), z, pf)
    ensures PageOf(Block(a, d, 0)) == a && a !in h.arenas
  {
    hide Core, Pages, Allocated, OnGrid, PageOf, Per, Block, Extends, Whole;
    Spans(h, live);
    FreshClear(h, m, z, pf, a, 1);
    NewArenaKeeps(h, live, a, d);
    PagesStay(h, m, z, pf);
    NewWhole(m, z, pf, a, 1);
    PagesMore(h, NewArena(h, a, d), z, pf, a);
  }

  lemma PagesMore(h: State, k: State, z: Space, pf: Flag, a: nat)
    requires Pages(h, z, pf) && a in k.arenas && Whole(z, pf, a, Span(k.arenas[a]))
    requires forall c :: c in k.arenas && c != a ==> c in h.arenas && Span(h.arenas[c]) == Span(k.arenas[c])
    ensures Pages(k, z, pf)
  {
    hide Whole;
  }

  lemma TakeReady(h: State, live: set<nat>, m: Space, pf: Flag, d: nat)
    requires Core(h, live) && d < DESC_CNT && h.free[d] != [] && UsedBut(h, PageOf(h.free[d][0])) && Pages(h, m, pf)
    ensures var b := h.free[d][0];
      && b !in live && HeapInv(Take(h, d), live + {b}) && Pages(Take(h, d), m, pf)
      && PageOf(b) in h.arenas && 0 < h.arenas[PageOf(b)].cnt
      && Take(h, d) == State(h.free[d := h.free[d][1..]], h.arenas[PageOf(b) := Small(d, h.arenas[PageOf(b)].cnt - 1)])
  {
    hide Core, Pages, HeapInv, OnGrid, PageOf, FreeOf, Whole;
    TakeKeeps(h, live, d);
    TakeFacts(h, live, d);
    CoreCount(h, live);
    SameSpans(h, Take(h, d), m, pf);
  }

  lemma SameSpans(h: State, k: State, m: Space, pf: Flag)
    requires Pages(h, m, pf) && forall c :: c in k.arenas ==> c in h.arenas && Span(h.arenas[c]) == Span(k.arenas[c])
    ensures Pages(k, m, pf)
  {
    hide Whole;
  }
}

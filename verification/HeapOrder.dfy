/**
 In which order the heap hands its blocks out: every free list is a queue.
 */
module HeapOrder {
  import opened Common
  import opened Heap

  /** x stands before y in the list. */
  ghost predicate Before(q: seq<nat>, x: nat, y: nat) {
    exists i, j :: 0 <= i < j < |q| && q[i] == x && q[j] == y
  }

  /** The sizes double from 16 to 1024, and as many blocks are cut as fit behind the header of a page. */
  lemma SizesDouble(d: nat)
    requires d < DESC_CNT
    ensures Size(0) == 16 && Size(DESC_CNT - 1) == 1024 && (d + 1 < DESC_CNT ==> Size(d + 1) == 2 * Size(d))
    ensures Per(d) * Size(d) + 12 <= 4096 < (Per(d) + 1) * Size(d) + 12
  {
    PerIs(d);
  }

  /** The blocks of a new arena: addresses one block size apart, from the end of the header on. */
  lemma CutInOrder(a: nat, d: nat, i: nat)
    requires d < DESC_CNT && i < Per(d)
    ensures Blocks(a, d)[0] == 4096 * a + 12 && |Blocks(a, d)| == Per(d)
    ensures i + 1 < Per(d) ==> Blocks(a, d)[i + 1] == Blocks(a, d)[i] + Size(d)
  {
    hide Size, Per;
    if i + 1 < Per(d) { NextBlock(i, Size(d)); }
  }

  lemma NextBlock(i: nat, n: nat)
    ensures (i + 1) * n == i * n + n && 0 * n == 0
  {
  }

  /** Leaving elements out keeps the order of the others. */
  lemma {:induction false} WithoutBefore(q: seq<nat>, s: set<nat>, x: nat, y: nat)
    requires Before(q, x, y) && x !in s && y !in s
    ensures Before(Without(q, s), x, y)
  {
    hide Without, Before;
    Split(q, x, y);
    var r := Without(q[1..], s);
    assert q == [q[0]] + q[1..];
    WithoutFirst(q[0], q[1..], s);
    if q[0] == x && y in q[1..] {
      assert y in r;
      HeadBefore(x, r, y);
    } else {
      WithoutBefore(q[1..], s, x, y);
      if q[0] in s { assert [] + r == r; } else { MoreInFront(q[0], r, x, y); }
    }
  }

  lemma Split(q: seq<nat>, x: nat, y: nat)
    requires Before(q, x, y)
    ensures q != [] && ((q[0] == x && y in q[1..]) || Before(q[1..], x, y))
  {
    var i, j :| 0 <= i < j < |q| && q[i] == x && q[j] == y;
    assert q[1..][j - 1] == y;
    if i > 0 { assert q[1..][i - 1] == x; }
  }

  lemma HeadBefore(x: nat, r: seq<nat>, y: nat)
    requires y in r
    ensures Before([x] + r, x, y)
  {
    var k :| 0 <= k < |r| && r[k] == y;
    assert ([x] + r)[0] == x && ([x] + r)[k + 1] == y;
  }

  lemma MoreInFront(b: nat, r: seq<nat>, x: nat, y: nat)
    requires Before(r, x, y)
    ensures Before([b] + r, x, y)
  {
    var i, j :| 0 <= i < j < |r| && r[i] == x && r[j] == y;
    assert ([b] + r)[i + 1] == x && ([b] + r)[j + 1] == y;
  }

  /** The state of the lists after an operation. */
  ghost function Lists(h: State, live: set<nat>, op: Op): seq<seq<nat>>
    requires Possible(h, live, op)
  {
    Apply(h, live, op).0.free
  }

  /** Any operation: two blocks that stay on a free list keep their order there. */
  lemma OrderKept(h: State, live: set<nat>, op: Op, d: nat, x: nat, y: nat)
    requires HeapInv(h, live) && Possible(h, live, op) && d < DESC_CNT
    requires Before(h.free[d], x, y) && x in Lists(h, live, op)[d] && y in Lists(h, live, op)[d]
    ensures |Lists(h, live, op)| == DESC_CNT && Before(Lists(h, live, op)[d], x, y)
  {
    hide OnGrid, PageOf, Per, Block, Size, ArenaOk, Without;
    ApplyKeeps(h, live, op);
    var q, r := h.free[d], Lists(h, live, op)[d];
    var i, j :| 0 <= i < j < |q| && q[i] == x && q[j] == y;
    assert ListOk(h, d);
    match op
    case Reuse(e) => if e == d { TailBefore(q, x, y, i, j); }
    case Carve(a, e) =>
    case Map(a, n) =>
    case Release(b) => ReleaseBefore(h, live, b, d, x, y);
  }

  lemma TailBefore(q: seq<nat>, x: nat, y: nat, i: nat, j: nat)
    requires NoDup(q) && i < j < |q| && q[i] == x && q[j] == y && x in q[1..]
    ensures Before(q[1..], x, y)
  {
    var k :| 0 <= k < |q[1..]| && q[1..][k] == x;
    assert q[k + 1] == x;
    assert i == k + 1;
    assert q[1..][i - 1] == x && q[1..][j - 1] == y;
  }

  lemma ReleaseBefore(h: State, live: set<nat>, b: nat, d: nat, x: nat, y: nat)
    requires HeapInv(h, live) && Possible(h, live, Release(b)) && d < DESC_CNT && Before(h.free[d], x, y)
    requires |Freed(h, b).free| == DESC_CNT && x in Freed(h, b).free[d] && y in Freed(h, b).free[d]
    ensures Before(Freed(h, b).free[d], x, y)
  {
    hide OnGrid, PageOf, Per, Block, Size, ArenaOk, Without;
    var a := PageOf(b);
    if h.arenas[a].Small? {
      var e, k := h.arenas[a].desc, Give(h, b);
      if e == d {
        MoreBefore(h.free[d], b, x, y);
        if k.arenas[a].cnt == Per(e) { WithoutBefore(k.free[d], Elems(Blocks(a, e)), x, y); }
      }
    }
  }

  lemma MoreBefore(q: seq<nat>, b: nat, x: nat, y: nat)
    requires Before(q, x, y)
    ensures Before(q + [b], x, y)
  {
    var i, j :| 0 <= i < j < |q| && q[i] == x && q[j] == y;
    assert (q + [b])[i] == x && (q + [b])[j] == y;
  }

  /**
   First freed, first reused: what is handed out stood before every other free block of its size, and what is given
   back stands behind all of them.
   */
  lemma QueueEnds(h: State, live: set<nat>, op: Op)
    requires HeapInv(h, live) && Possible(h, live, op)
    ensures op.Reuse? ==>
      var b := h.free[op.d][0];
      b in Apply(h, live, op).1 && b !in live && forall x :: x in h.free[op.d] && x != b ==> Before(h.free[op.d], b, x)
    ensures op.Release? && h.arenas[PageOf(op.b)].Small? ==>
      var d := h.arenas[PageOf(op.b)].desc; var q := Lists(h, live, op)[d];
      op.b in q ==> forall x :: x in q && x != op.b ==> Before(q, x, op.b)
  {
    hide OnGrid, PageOf, Per, Block, Size, ArenaOk, Without, HeapInv;
    ApplyKeeps(h, live, op);
    match op
    case Reuse(d) => HeadFirst(h.free[d]);
    case Release(b) =>
      var a := PageOf(b);
      if h.arenas[a].Small? {
        var d, k := h.arenas[a].desc, Give(h, b);
        LastLast(h.free[d], b);
        if k.arenas[a].cnt == Per(d) {
          forall x | x in DropArena(k, a).free[d] && x != b && b in DropArena(k, a).free[d]
            ensures Before(DropArena(k, a).free[d], x, b)
          {
            WithoutBefore(k.free[d], Elems(Blocks(a, d)), x, b);
          }
        }
      }
    case _ =>
  }

  lemma HeadFirst(q: seq<nat>)
    requires q != []
    ensures forall x :: x in q && x != q[0] ==> Before(q, q[0], x)
  {
    forall x | x in q && x != q[0] ensures Before(q, q[0], x) { var j :| 0 <= j < |q| && q[j] == x; }
  }

  lemma LastLast(q: seq<nat>, b: nat)
    ensures forall x :: x in q + [b] && x != b ==> Before(q + [b], x, b)
  {
    forall x | x in q + [b] && x != b ensures Before(q + [b], x, b) {
      var i :| 0 <= i < |q + [b]| && (q + [b])[i] == x;
      assert (q + [b])[|q|] == b;
    }
  }
}

/**
 Regular files over the block layer: file_write appends, file_read reads a slice, and
 inode_release gives everything back. A file is the byte sequence its blocks spell.
 */
module FileData {
  import opened Volume

  /** Blocks in use: none before the first write, then one more than the full blocks. */
  function BlockCount(nd: Inode): nat {
    if nd.sectors[0] == 0 then 0 else SecOf(nd.size) + 1
  }

  ghost predicate Shape(nd: Inode, disk: map<word, Sector>, n: nat) {
    && n <= MAX_BLOCKS
    && (forall k :: 0 <= k < MAX_BLOCKS ==> (AllBlocks(nd, disk)[k] != 0 <==> k < n))
    && (nd.sectors[12] != 0 <==> n > DIRECT)
  }

  ghost predicate FileOk(nd: Inode, disk: map<word, Sector>) {
    && nd.size < MAX_BLOCKS * BLOCK_SIZE
    && Shape(nd, disk, BlockCount(nd))
    && (nd.sectors[0] == 0 ==> nd.size == 0)
  }

  /** Block index and offset of a byte position. */
  function SecOf(i: nat): nat { i / 512 }

  function OffOf(i: nat): nat { i % 512 }

  lemma Position(i: nat)
    ensures i == SecOf(i) * 512 + OffOf(i) && OffOf(i) < 512
  {
  }

  lemma SecMonotone(i: nat, j: nat)
    requires i <= j
    ensures SecOf(i) <= SecOf(j) && (j < MAX_BLOCKS * BLOCK_SIZE ==> SecOf(j) < MAX_BLOCKS)
  {
  }

  function ByteAt(blocks: seq<word>, disk: map<word, Sector>, i: nat): byte
  {
    if SecOf(i) < |blocks| then Read(disk, blocks[SecOf(i)])[OffOf(i)] else 0
  }

  /** The blocks hold these bytes from the start. */
  ghost predicate Spells(blocks: seq<word>, disk: map<word, Sector>, bytes: seq<byte>) {
    && |blocks| == MAX_BLOCKS && |bytes| < MAX_BLOCKS * BLOCK_SIZE
    && forall i :: 0 <= i < |bytes| ==> ByteAt(blocks, disk, i) == bytes[i]
  }

  /** What the file says. */
  function Content(nd: Inode, disk: map<word, Sector>): (c: seq<byte>)
    ensures |c| == nd.size
  {
    seq(nd.size, i requires 0 <= i < nd.size => ByteAt(AllBlocks(nd, disk), disk, i))
  }

  lemma ContentSpelled(nd: Inode, disk: map<word, Sector>)
    requires nd.size < MAX_BLOCKS * BLOCK_SIZE
    ensures Spells(AllBlocks(nd, disk), disk, Content(nd, disk))
  {
  }

  /** Blocks that writing `count` more bytes takes from the bitmap. */
  function Need(nd: Inode, count: nat): nat {
    var used := SecOf(nd.size) + 1;
    var will := SecOf(nd.size + count) + 1;
    (if nd.sectors[0] == 0 then 1 else 0) + (will - used) + (if used <= 12 < will then 1 else 0)
  }

  // ---------------------------------------------------------------- taking blocks

  /** The blocks `got` were taken, in this order: each the first free one at its time. */
  ghost predicate Taken(v: Vol, w: Vol, got: seq<word>) {
    && w.start == v.start && |w.bits| == |v.bits| && w.reserved == v.reserved
    && (forall i :: 0 <= i < |got| ==> InRange(v, got[i]) && !IsSet(v, got[i]))
    && (forall i, j :: 0 <= i < j < |got| ==> got[i] < got[j])
    && (forall a :: IsSet(w, a) <==> IsSet(v, a) || a in got)
    && FirstFit(v, w)
    && FreeCount(w.bits) + |got| == FreeCount(v.bits)
  }

  ghost predicate DiskKept(v: Vol, w: Vol, but: set<word>) {
    forall a :: a !in but ==> Read(w.disk, a) == Read(v.disk, a)
  }

  function Elems(s: seq<word>): set<word> {
    set a | a in s
  }

  method TakeBlock(p: Partition, ghost v: Vol, ghost got: seq<word>) returns (lba: word, ok: bool)
    requires v.start + |v.bits| <= 0x1_0000_0000
    requires Taken(v, p.V(), got) && DiskKept(v, p.V(), Elems(got))
    modifies p`bits, p`disk
    ensures !ok ==> p.V() == old(p.V()) && FreeCount(p.bits) == 0
    ensures ok ==> Taken(v, p.V(), got + [lba]) && DiskKept(v, p.V(), Elems(got + [lba]))
    ensures ok ==> p.disk == old(p.disk)[lba := ZeroSector()] && lba !in got
  {
    ghost var u := p.V();
    lba, ok := p.BlockBitmapAlloc();
    if ok {
      ghost var w := p.V();
      assert !IsSet(u, lba);
      assert lba in got ==> IsSet(u, lba);
      assert forall a: word :: InRange(v, a) && a < lba ==> IsSet(u, a);
      forall a ensures IsSet(w, a) <==> IsSet(v, a) || a in got + [lba] {
        assert a != lba ==> IsSet(w, a) == IsSet(u, a);
      }
      forall i | 0 <= i < |got| ensures got[i] < lba { assert got[i] in got && IsSet(u, got[i]); }
    }
  }

  // ---------------------------------------------------------------- growing one inode

  /** The block addresses from `used` to `will` are the new ones, the rest as before. */
  ghost predicate BlocksGrew(a: seq<word>, b: seq<word>, used: nat, will: nat, news: seq<word>) {
    && |a| == |b| == MAX_BLOCKS && |news| == will - used
    && forall k :: 0 <= k < MAX_BLOCKS ==> b[k] == if used <= k < will then news[k - used] else a[k]
  }

  /** The caller's copy of the address array is right between lo and hi. */
  ghost predicate Located(all: seq<word>, blocks: seq<word>, lo: int, hi: int) {
    && |all| == |blocks| == MAX_BLOCKS
    && forall k :: 0 <= k < MAX_BLOCKS && lo <= k < hi ==> all[k] == blocks[k]
  }

  /** The table part of the address array: what was stored, with new entries from `used` on. */
  ghost predicate Merged(all: seq<word>, stored: seq<word>, got: seq<word>, used: nat) {
    && |all| == MAX_BLOCKS && |stored| == 128
    && forall k :: 12 <= k < MAX_BLOCKS ==> all[k] == if used <= k < used + |got| then got[k - used] else stored[k - 12]
  }

  /** From v to w the inode grew from `used` to `will` blocks: the new ones, and the table if one was due. */
  ghost predicate Extended(v: Vol, w: Vol, ino: nat, used: nat, will: nat, got: seq<word>) {
    && ino in v.inodes && ino in w.inodes
    && w.inodes[ino].size == v.inodes[ino].size
    && OthersKept(v, w, ino) && Taken(v, w, got)
    && |got| == will - used + (if used <= 12 < will then 1 else 0)
    && Shape(w.inodes[ino], w.disk, will)
    && (forall k :: 0 <= k < used <= MAX_BLOCKS ==>
          var a := AllBlocks(v.inodes[ino], v.disk)[k];
          AllBlocks(w.inodes[ino], w.disk)[k] == a && Read(w.disk, a) == Read(v.disk, a))
    && (forall k :: used <= k < will <= MAX_BLOCKS ==> AllBlocks(w.inodes[ino], w.disk)[k] == got[|got| - (will - k)])
    && (forall a :: Owns(w, ino, a) <==> Owns(v, ino, a) || a in got)
  }

  /** The addresses after growing: the old ones where they were, the new ones where there was none. */
  lemma RefsGrow(r: seq<word>, s: seq<word>, used: nat, will: nat, table: seq<word>, news: seq<word>)
    requires |r| == |s| == MAX_BLOCKS + 1 && NoRepeats(r)
    requires used <= will <= MAX_BLOCKS && |news| == will - used && |table| <= 1
    requires forall k :: 0 <= k < MAX_BLOCKS ==> s[k] == if used <= k < will then news[k - used] else r[k]
    requires s[140] == if |table| == 1 then table[0] else r[140]
    requires forall k :: used <= k < will ==> r[k] == 0
    requires |table| == 1 ==> r[140] == 0
    requires forall i, j :: 0 <= i < j < |table + news| ==> (table + news)[i] != (table + news)[j]
    requires forall a :: a in table + news ==> a != 0 && a !in r
    ensures NoRepeats(s)
    ensures forall a :: a in s && a != 0 <==> (a in r && a != 0) || a in table + news
  {
    var got := table + news;
    assert forall i :: 0 <= i < |news| ==> news[i] == got[i + |table|];
    forall k | 0 <= k < 141
      ensures s[k] == r[k] || (s[k] in got && r[k] == 0)
    {
      if used <= k < will {
        assert s[k] == news[k - used] == got[k - used + |table|];
      }
    }
    forall a | a in got ensures a in s {
      var i :| 0 <= i < |got| && got[i] == a;
      if i < |table| { assert s[140] == a; } else { assert s[used + i - |table|] == a; }
    }
    forall a | a in r && a != 0 ensures a in s {
      var k :| 0 <= k < 141 && r[k] == a;
      assert s[k] == a;
    }
    forall i, j | 0 <= i < j < 141 && s[i] != 0 ensures s[i] != s[j] {
      assert r[i] in r && r[j] in r;
      if s[i] in got && s[j] in got {
        GotIndex(table, news, used, will, i, j);
      }
    }
  }

  /** Two different places that hold new blocks hold different ones. */
  lemma GotIndex(table: seq<word>, news: seq<word>, used: nat, will: nat, i: nat, j: nat)
    requires |news| == will - used && |table| <= 1 && i < j < 141 && will <= 140
    requires forall a, b :: 0 <= a < b < |table + news| ==> (table + news)[a] != (table + news)[b]
    ensures used <= i < will && used <= j < will ==> news[i - used] != news[j - used]
    ensures used <= i < will && j == 140 && |table| == 1 ==> news[i - used] != table[0]
  {
    var got := table + news;
    assert forall k :: 0 <= k < |news| ==> got[k + |table|] == news[k];
    if used <= i < will && used <= j < will {
      assert got[i - used + |table|] != got[j - used + |table|];
    }
    if used <= i < will && j == 140 && |table| == 1 {
      assert got[0] == table[0] && got[0] != got[i - used + 1];
    }
  }

  /** Sectors outside `but` are untouched, and `but` holds only new blocks and blocks of this inode. */
  lemma OthersUntouched(v: Vol, w: Vol, ino: nat, but: set<word>)
    requires Inv(v) && DiskKept(v, w, but)
    requires w.start == v.start && |w.bits| == |v.bits| && w.reserved == v.reserved
    requires ino in w.inodes && w.inodes == v.inodes[ino := w.inodes[ino]]
    requires forall a :: a in but ==> !IsSet(v, a) || Owns(v, ino, a)
    ensures OthersKept(v, w, ino)
  {
    forall j | j in v.inodes && j != ino
      ensures SameOn(v.disk, w.disk, Owned(v.inodes[j], v.disk))
    {
      forall a | a in Owned(v.inodes[j], v.disk) ensures Read(w.disk, a) == Read(v.disk, a) {
        assert Owns(v, j, a);
      }
    }
  }

  lemma RefsOwned(v: Vol, ino: nat)
    requires ino in v.inodes
    ensures forall k :: 0 <= k < MAX_BLOCKS ==> Refs(v.inodes[ino], v.disk)[k] == AllBlocks(v.inodes[ino], v.disk)[k]
    ensures Refs(v.inodes[ino], v.disk)[140] == v.inodes[ino].sectors[12]
    ensures forall a :: Owns(v, ino, a) <==> a in Refs(v.inodes[ino], v.disk) && a != 0
  {
    hide AllBlocks;
  }

  /** The three ways file_write grows an inode all come to this. */
  ghost predicate Grew(v: Vol, w: Vol, ino: nat, used: nat, will: nat, table: seq<word>, news: seq<word>) {
    && ino in v.inodes && Shape(v.inodes[ino], v.disk, used) && used <= will <= MAX_BLOCKS
    && ino in w.inodes && w.inodes == v.inodes[ino := w.inodes[ino]]
    && w.inodes[ino].size == v.inodes[ino].size
    && |news| == will - used && |table| == (if used <= 12 < will then 1 else 0)
    && Taken(v, w, table + news)
    && DiskKept(v, w, Elems(table + news) + ({v.inodes[ino].sectors[12]} - {0}))
    && BlocksGrew(AllBlocks(v.inodes[ino], v.disk), AllBlocks(w.inodes[ino], w.disk), used, will, news)
    && w.inodes[ino].sectors[12] == (if |table| == 1 then table[0] else v.inodes[ino].sectors[12])
  }

  lemma TakenFresh(v: Vol, w: Vol, ino: nat, got: seq<word>)
    requires Inv(v) && ino in v.inodes && Taken(v, w, got)
    ensures forall a :: a in got ==> a != 0 && InRange(v, a) && !IsSet(v, a) && a !in Refs(v.inodes[ino], v.disk)
  {
    forall a | a in got ensures a !in Refs(v.inodes[ino], v.disk) {
      assert !Owns(v, ino, a);
    }
  }

  lemma GrewRefs(v: Vol, w: Vol, ino: nat, used: nat, will: nat, table: seq<word>, news: seq<word>)
    requires Inv(v) && Grew(v, w, ino, used, will, table, news)
    ensures NoSharing(w.inodes[ino], w.disk)
    ensures forall a :: Owns(w, ino, a) <==> Owns(v, ino, a) || a in table + news
  {
    hide AllBlocks, Refs, Owned, IsSet, InRange, FreeCount;
    RefsOwned(v, ino);
    RefsOwned(w, ino);
    TakenFresh(v, w, ino, table + news);
    RefsGrow(Refs(v.inodes[ino], v.disk), Refs(w.inodes[ino], w.disk), used, will, table, news);
  }

  lemma GrewOthers(v: Vol, w: Vol, ino: nat, used: nat, will: nat, table: seq<word>, news: seq<word>)
    requires Inv(v) && Grew(v, w, ino, used, will, table, news)
    ensures OthersKept(v, w, ino)
    ensures forall k :: 0 <= k < used ==>
      var a := AllBlocks(v.inodes[ino], v.disk)[k];
      AllBlocks(w.inodes[ino], w.disk)[k] == a && Read(w.disk, a) == Read(v.disk, a)
  {
    hide AllBlocks, Refs, Owned, IsSet, InRange, FreeCount;
    var r := Refs(v.inodes[ino], v.disk);
    RefsOwned(v, ino);
    TakenFresh(v, w, ino, table + news);
    assert r[140] in r;
    OthersUntouched(v, w, ino, Elems(table + news) + ({v.inodes[ino].sectors[12]} - {0}));
    forall k | 0 <= k < used ensures Read(w.disk, r[k]) == Read(v.disk, r[k]) {
      assert r[k] in r && r[k] !in table + news && r[k] != r[140];
    }
  }

  lemma Extend(v: Vol, w: Vol, ino: nat, used: nat, will: nat, table: seq<word>, news: seq<word>)
    requires Inv(v) && Grew(v, w, ino, used, will, table, news)
    ensures Inv(w) && Extended(v, w, ino, used, will, table + news)
  {
    hide AllBlocks, FirstFit;
    GrewRefs(v, w, ino, used, will, table, news);
    GrewOthers(v, w, ino, used, will, table, news);
    TakenFresh(v, w, ino, table + news);
    Rebalance(v, w, ino, Elems(table + news), {});
    NewPlaces(v, w, ino, used, will, table, news);
    NewShape(v, w, ino, used, will, table, news);
  }

  lemma NewPlaces(v: Vol, w: Vol, ino: nat, used: nat, will: nat, table: seq<word>, news: seq<word>)
    requires Grew(v, w, ino, used, will, table, news)
    ensures forall k :: used <= k < will ==>
      AllBlocks(w.inodes[ino], w.disk)[k] == (table + news)[|table + news| - (will - k)]
  {
    hide AllBlocks, Taken, DiskKept;
  }

  lemma NewShape(v: Vol, w: Vol, ino: nat, used: nat, will: nat, table: seq<word>, news: seq<word>)
    requires Grew(v, w, ino, used, will, table, news)
    requires forall a :: a in table + news ==> a != 0
    ensures Shape(w.inodes[ino], w.disk, will)
  {
    forall i | 0 <= i < |news| ensures news[i] != 0 {
      assert news[i] in table + news;
    }
    if |table| == 1 {
      assert table[0] in table + news;
    }
  }

  // ---------------------------------------------------------------- the allocation phase of file_write

  /** The state while blocks are being taken for one inode: only its record and the bitmap have moved. */
  ghost predicate Growing(v: Vol, w: Vol, ino: nat, got: seq<word>) {
    && ino in v.inodes && ino in w.inodes
    && w.inodes == v.inodes[ino := w.inodes[ino]] && w.inodes[ino].size == v.inodes[ino].size
    && Taken(v, w, got) && DiskKept(v, w, Elems(got))
  }

  function Assigned(s: Sectors13, used: nat, news: seq<word>): (t: Sectors13)
    ensures forall k :: 0 <= k < 13 ==> t[k] == if used <= k < used + |news| then news[k - used] else s[k]
  {
    seq(13, k requires 0 <= k < 13 => if used <= k < used + |news| then news[k - used] else s[k])
  }

  /** A failed growth has moved bits and perhaps the inode's unused entries, but no block that held data. */
  ghost predicate Stuck(v: Vol, w: Vol, ino: nat, used: nat, got: seq<word>) {
    && Growing(v, w, ino, got)
    && (forall k :: 0 <= k < used <= MAX_BLOCKS ==>
          AllBlocks(w.inodes[ino], w.disk)[k] == AllBlocks(v.inodes[ino], v.disk)[k])
  }

  lemma VolumeFits(v: Vol)
    requires Inv(v)
    ensures v.start + |v.bits| <= 0x1_0000_0000
  {
  }

  lemma Untouched(v: Vol)
    ensures Taken(v, v, []) && DiskKept(v, v, Elems([]))
  {
  }

  lemma InodesApart(v: Vol, w: Vol, nodes: map<nat, Inode>, got: seq<word>)
    requires Taken(v, w, got) && DiskKept(v, w, Elems(got))
    ensures Taken(v, w.(inodes := nodes), got) && DiskKept(v, w.(inodes := nodes), Elems(got))
  {
    assert forall a :: IsSet(w.(inodes := nodes), a) == IsSet(w, a);
  }

  lemma BitsApart(v: Vol, u: Vol, w: Vol, got: seq<word>)
    requires Taken(v, u, got)
    requires w.start == u.start && w.bits == u.bits && w.reserved == u.reserved
    ensures Taken(v, w, got)
  {
    assert forall a :: IsSet(w, a) == IsSet(u, a);
  }

  lemma DirectUnused(nd: Inode, disk: map<word, Sector>, n: nat, k: nat)
    requires Shape(nd, disk, n) && k < 12
    ensures nd.sectors[k] == AllBlocks(nd, disk)[k]
    ensures nd.sectors[k] != 0 <==> k < n
  {
  }

  /** New data fits in the direct blocks. */
  method GrowDirect(p: Partition, ino: nat, used: nat, will: nat)
      returns (all: seq<word>, ok: bool, ghost got: seq<word>)
    requires Inv(p.V()) && ino in p.inodes && Shape(p.inodes[ino], p.disk, used) && 1 <= used < will <= 12
    modifies p
    ensures ok ==> Inv(p.V()) && Extended(old(p.V()), p.V(), ino, used, will, got) && |all| == MAX_BLOCKS
    ensures ok ==> Located(all, AllBlocks(p.inodes[ino], p.disk), used - 1, will)
    ensures !ok ==>
      Stuck(old(p.V()), p.V(), ino, used, got) && FreeCount(p.bits) == 0 && |got| < will - used && Inv(p.V())
  {
    hide AllBlocks, IsSet, InRange, FreeCount, Inv, Shape, Extended, Taken, DiskKept;
    ghost var v := p.V();
    ghost var nd := p.inodes[ino];
    VolumeFits(v);
    Untouched(v);
    all := seq(MAX_BLOCKS, _ => 0);
    got := [];
    ok := true;
    var idx := used - 1;
    all := all[idx := p.inodes[ino].sectors[idx]];
    idx := used;
    while idx < will
      invariant used <= idx <= will && |got| == idx - used && |all| == MAX_BLOCKS
      invariant Growing(v, p.V(), ino, got)
      invariant p.inodes[ino].sectors == Assigned(nd.sectors, used, got)
      invariant forall k :: used - 1 <= k < idx ==> all[k] == p.inodes[ino].sectors[k]
    {
      var lba;
      lba, ok := TakeBlock(p, v, got);
      if !ok {
        DirectPrefix(v, p.V(), ino, used);
        DirectStuck(v, p.V(), ino, used, got);
        return;
      }
      DirectUnused(nd, v.disk, used, idx);
      assert p.inodes[ino].sectors[idx] == 0;
      got := got + [lba];
      var cur := p.inodes[ino];
      ghost var u := p.V();
      p.inodes := p.inodes[ino := cur.(sectors := cur.sectors[idx := lba])];
      InodesApart(v, u, p.inodes, got);
      all := all[idx := lba];
      assert p.inodes[ino].sectors == Assigned(nd.sectors, used, got);
      idx := idx + 1;
    }
    assert [] + got == got;
    DirectGrew(v, p.V(), ino, used, will, got);
    Extend(v, p.V(), ino, used, will, [], got);
  }

  lemma DirectGrew(v: Vol, w: Vol, ino: nat, used: nat, will: nat, got: seq<word>)
    requires Inv(v) && Growing(v, w, ino, got) && Shape(v.inodes[ino], v.disk, used) && used < will <= 12
    requires |got| == will - used && w.inodes[ino].sectors == Assigned(v.inodes[ino].sectors, used, got)
    ensures Grew(v, w, ino, used, will, [], got)
    ensures forall k :: 0 <= k < 12 ==> AllBlocks(w.inodes[ino], w.disk)[k] == w.inodes[ino].sectors[k]
  {
    hide IsSet, InRange, FreeCount, Owned, Inv, Taken;
    assert [] + got == got;
  }

  /** The table is there, still blank, and the new blocks that fit are entered directly. */
  ghost predicate Crossing(v: Vol, w: Vol, ino: nat, used: nat, table: word, news: seq<word>) {
    && Growing(v, w, ino, [table] + news) && used <= 12
    && w.inodes[ino].sectors == WithTable(v.inodes[ino].sectors, used, news, table)
    && Read(w.disk, table) == ZeroSector()
  }

  lemma CrossingParts(v: Vol, w: Vol, ino: nat, used: nat, table: word, news: seq<word>)
    requires Crossing(v, w, ino, used, table, news)
    ensures Growing(v, w, ino, [table] + news) && Read(w.disk, table) == ZeroSector()
    ensures w.inodes[ino].sectors == WithTable(v.inodes[ino].sectors, used, news, table)
    ensures forall k :: 0 <= k < used ==> w.inodes[ino].sectors[k] == v.inodes[ino].sectors[k]
  {
    hide IsSet, InRange, FreeCount, Taken, DiskKept;
    WithTableKeeps(v.inodes[ino].sectors, used, news, table);
  }

  lemma CrossingMore(v: Vol, u: Vol, w: Vol, nodes: map<nat, Inode>, ino: nat, used: nat, table: word, news: seq<word>,
                     lba: word)
    requires Crossing(v, u, ino, used, table, news) && lba !in [table] + news
    requires Taken(v, w, [table] + news + [lba]) && DiskKept(v, w, Elems([table] + news + [lba]))
    requires w.inodes == u.inodes && w.disk == u.disk[lba := ZeroSector()]
    requires var s := u.inodes[ino].sectors; nodes == u.inodes[ino := u.inodes[ino].(sectors :=
      if used + |news| < 12 then s[used + |news| := lba] else s)]
    ensures Crossing(v, w.(inodes := nodes), ino, used, table, news + [lba])
  {
    hide IsSet, InRange, FreeCount, Taken, DiskKept, WithTable;
    assert [table] + news + [lba] == [table] + (news + [lba]);
    assert table in [table] + news;
    WithTableStep(v.inodes[ino].sectors, used, news, table, lba);
    InodesApart(v, w, nodes, [table] + (news + [lba]));
  }

  /** The next block of a file that is getting its table. */
  method CrossTake(p: Partition, ghost v: Vol, ino: nat, used: nat, table: word, ghost news: seq<word>, idx: nat)
      returns (lba: word, ok: bool)
    requires Inv(v) && Crossing(v, p.V(), ino, used, table, news) && idx == used + |news|
    requires Shape(v.inodes[ino], v.disk, used)
    modifies p
    ensures !ok ==> p.V() == old(p.V()) && FreeCount(p.bits) == 0
    ensures ok ==> Crossing(v, p.V(), ino, used, table, news + [lba])
  {
    hide IsSet, InRange, FreeCount, Taken, DiskKept, WithTable, Crossing, Inv;
    ghost var u := p.V();
    VolumeFits(v);
    CrossingParts(v, u, ino, used, table, news);
    lba, ok := TakeBlock(p, v, [table] + news);
    if !ok { return; }
    ghost var w := p.V();
    var cur := p.inodes[ino];
    if idx < 12 {
      WithTableUnused(v.inodes[ino], v.disk, used, news, table);
      assert cur.sectors[idx] == 0;
      p.inodes := p.inodes[ino := cur.(sectors := cur.sectors[idx := lba])];
    } else {
      assert p.inodes == p.inodes[ino := cur];
    }
    CrossingMore(v, u, w, p.inodes, ino, used, table, news, lba);
    assert p.V() == w.(inodes := p.inodes);
  }

  lemma WithTableUnused(nd: Inode, disk: map<word, Sector>, used: nat, news: seq<word>, table: word)
    requires Shape(nd, disk, used) && used + |news| < 12
    ensures WithTable(nd.sectors, used, news, table)[used + |news|] == 0
  {
    DirectUnused(nd, disk, used, used + |news|);
  }

  lemma CrossingStart(v: Vol, w: Vol, nodes: map<nat, Inode>, ino: nat, used: nat, table: word)
    requires ino in v.inodes && ino in nodes && nodes == v.inodes[ino := nodes[ino]] && used <= 12
    requires nodes[ino].size == v.inodes[ino].size && nodes[ino].sectors == v.inodes[ino].sectors[12 := table]
    requires Inv(v) && Taken(v, w, [table]) && DiskKept(v, w, Elems([table])) && w.inodes == v.inodes
    requires w.disk == v.disk[table := ZeroSector()]
    ensures Crossing(v, w.(inodes := nodes), ino, used, table, [])
  {
    hide IsSet, InRange, FreeCount, Taken, DiskKept, Inv;
    assert [table] + [] == [table];
    InodesApart(v, w, nodes, [table]);
  }

  /** Old data in the direct blocks, new data reaching the indirect ones: the table comes first. */
  method GrowCross(p: Partition, ino: nat, used: nat, will: nat)
      returns (all: seq<word>, ok: bool, ghost got: seq<word>)
    requires Inv(p.V()) && ino in p.inodes && Shape(p.inodes[ino], p.disk, used) && 1 <= used <= 12 < will <= MAX_BLOCKS
    modifies p
    ensures ok ==> Inv(p.V()) && Extended(old(p.V()), p.V(), ino, used, will, got) && |all| == MAX_BLOCKS
    ensures ok ==> Located(all, AllBlocks(p.inodes[ino], p.disk), used - 1, will)
    ensures !ok ==> Stuck(old(p.V()), p.V(), ino, used, got) && FreeCount(p.bits) == 0 && |got| < will - used + 1
    ensures !ok ==> (Inv(p.V()) <==> old(FreeCount(p.bits)) <= 1 + (12 - used))
  {
    hide AllBlocks, IsSet, InRange, FreeCount, Inv, Shape, Extended, Taken, DiskKept, WithTable, Listed, Crossing, Read;
    ghost var v := p.V();
    var nd := p.inodes[ino];
    VolumeFits(v);
    Untouched(v);
    all := seq(MAX_BLOCKS, _ => 0);
    got := [];
    var idx := used - 1;
    all := all[idx := p.inodes[ino].sectors[idx]];
    var table;
    table, ok := TakeBlock(p, v, []);
    if !ok {
      assert [] + got == got;
      return;
    }
    assert [] + [table] == [table];
    TableUnused(nd, v.disk, used);
    assert p.inodes[ino].sectors[12] == 0;
    ghost var u := p.V();
    p.inodes := p.inodes[ino := nd.(sectors := nd.sectors[12 := table])];
    CrossingStart(v, u, p.inodes, ino, used, table);
    ghost var news: seq<word> := [];
    ListedStart(all, nd.sectors, used, table);
    idx := used;
    while idx < will
      invariant used <= idx <= will && |news| == idx - used && |all| == MAX_BLOCKS
      invariant Crossing(v, p.V(), ino, used, table, news) && Listed(all, nd.sectors, used, news)
    {
      var lba;
      lba, ok := CrossTake(p, v, ino, used, table, news, idx);
      if !ok {
        got := [table] + news;
        CrossingParts(v, p.V(), ino, used, table, news);
        DirectPrefix(v, p.V(), ino, used);
        CrossStuck(v, p.V(), ino, used, table, news);
        return;
      }
      ListedStep(all, nd.sectors, used, news, lba);
      news := news + [lba];
      all := all[idx := lba];
      idx := idx + 1;
    }
    got := [table] + news;
    u := p.V();
    CrossingParts(v, u, ino, used, table, news);
    p.disk := p.disk[table := TableBytes(all[12..])];
    CrossGrew(v, u, p.V(), ino, used, will, table, news, all);
    Extend(v, p.V(), ino, used, will, [table], news);
  }

  /** i_sectors while the table exists: direct entries for as many new blocks as fit. */
  function WithTable(s: Sectors13, used: nat, news: seq<word>, table: word): Sectors13
    requires used <= 12
  {
    Assigned(s, used, if used + |news| <= 12 then news else news[..12 - used])[12 := table]
  }

  lemma WithTableStep(s: Sectors13, used: nat, news: seq<word>, table: word, lba: word)
    requires used <= 12
    ensures WithTable(s, used, news + [lba], table)
            == if used + |news| < 12 then WithTable(s, used, news, table)[used + |news| := lba]
              else WithTable(s, used, news, table)
  {
    if used + |news| >= 12 {
      assert (news + [lba])[..12 - used] == if used + |news| == 12 then news else news[..12 - used];
    }
  }

  lemma WithTableKeeps(s: Sectors13, used: nat, news: seq<word>, table: word)
    requires used <= 12
    ensures forall k :: 0 <= k < used ==> WithTable(s, used, news, table)[k] == s[k]
  {
  }

  lemma ListedStart(all: seq<word>, s: Sectors13, used: nat, table: word)
    requires 1 <= used <= 12 && all == seq(MAX_BLOCKS, _ => 0)[used - 1 := s[used - 1]]
    ensures Listed(all, s, used, []) && WithTable(s, used, [], table) == s[12 := table]
  {
  }

  lemma ListedStep(all: seq<word>, s: Sectors13, used: nat, news: seq<word>, lba: word)
    requires Listed(all, s, used, news) && used + |news| < MAX_BLOCKS
    ensures Listed(all[used + |news| := lba], s, used, news + [lba])
  {
  }

  /** The address array while blocks are being taken: the last old block, the new ones, nothing after. */
  ghost predicate Listed(all: seq<word>, s: Sectors13, used: nat, news: seq<word>) {
    && |all| == MAX_BLOCKS && 1 <= used <= 12
    && all[used - 1] == s[used - 1]
    && (forall k :: used <= k < MAX_BLOCKS ==> all[k] == if k < used + |news| then news[k - used] else 0)
  }

  lemma TableUnused(nd: Inode, disk: map<word, Sector>, n: nat)
    requires Shape(nd, disk, n)
    ensures nd.sectors[12] != 0 <==> n > 12
  {
  }

  lemma DirectPrefix(v: Vol, w: Vol, ino: nat, used: nat)
    requires ino in v.inodes && ino in w.inodes && used <= 12
    requires forall k :: 0 <= k < used ==> w.inodes[ino].sectors[k] == v.inodes[ino].sectors[k]
    ensures forall k :: 0 <= k < used ==> AllBlocks(w.inodes[ino], w.disk)[k] == AllBlocks(v.inodes[ino], v.disk)[k]
  {
  }

  /** What the addresses are once the direct entries are assigned and the table is written. */
  lemma CrossBlocks(nd: Inode, d: map<word, Sector>, md: Inode, e: map<word, Sector>,
                    used: nat, will: nat, table: word, news: seq<word>, all: seq<word>)
    requires Shape(nd, d, used) && 1 <= used <= 12 < will <= MAX_BLOCKS
    requires |news| == will - used && |all| == MAX_BLOCKS && table != 0
    requires Read(e, table) == TableBytes(all[12..])
    requires md.sectors == WithTable(nd.sectors, used, news, table)
    requires Listed(all, nd.sectors, used, news)
    ensures BlocksGrew(AllBlocks(nd, d), AllBlocks(md, e), used, will, news)
    ensures Located(all, AllBlocks(md, e), used - 1, will)
  {
    hide Table, TableBytes, WordAt, WordByte, Read, WithTable;
    TableRoundTrip(all[12..]);
    WithTableAt(nd.sectors, used, news, table);
    var a, b := AllBlocks(nd, d), AllBlocks(md, e);
    assert b == md.sectors[..12] + all[12..];
    forall k | 0 <= k < MAX_BLOCKS ensures b[k] == if used <= k < will then news[k - used] else a[k] {
      if k >= 12 { assert b[k] == all[k]; }
    }
  }

  lemma WithTableAt(s: Sectors13, used: nat, news: seq<word>, table: word)
    requires used <= 12
    ensures WithTable(s, used, news, table)[12] == table
    ensures forall k :: 0 <= k < 12 ==>
      WithTable(s, used, news, table)[k] == if used <= k < used + |news| then news[k - used] else s[k]
  {
  }

  lemma CrossGrew(v: Vol, u: Vol, w: Vol, ino: nat, used: nat, will: nat, table: word, news: seq<word>, all: seq<word>)
    requires Inv(v) && Growing(v, u, ino, [table] + news)
    requires Shape(v.inodes[ino], v.disk, used) && 1 <= used <= 12 < will <= MAX_BLOCKS
    requires |news| == will - used && |all| == MAX_BLOCKS
    requires w == u.(disk := u.disk[table := TableBytes(all[12..])])
    requires w.inodes[ino].sectors == WithTable(v.inodes[ino].sectors, used, news, table)
    requires Listed(all, v.inodes[ino].sectors, used, news)
    ensures Grew(v, w, ino, used, will, [table], news)
    ensures Located(all, AllBlocks(w.inodes[ino], w.disk), used - 1, will)
  {
    hide IsSet, InRange, AllBlocks, Refs, Owned, FreeCount, Inv, Taken, TableBytes, Table, BlocksGrew, Located;
    var got := [table] + news;
    assert got[0] == table && table in got;
    TakenFresh(v, u, ino, got);
    BitsApart(v, u, w, got);
    CrossBlocks(v.inodes[ino], v.disk, w.inodes[ino], w.disk, used, will, table, news, all);
  }

  /** Old data already in the indirect blocks: the table is read, extended and written back. */
  method GrowIndirect(p: Partition, ino: nat, used: nat, will: nat)
      returns (all: seq<word>, ok: bool, ghost got: seq<word>)
    requires Inv(p.V()) && ino in p.inodes && Shape(p.inodes[ino], p.disk, used) && 12 < used < will <= MAX_BLOCKS
    modifies p
    ensures ok ==> Inv(p.V()) && Extended(old(p.V()), p.V(), ino, used, will, got) && |all| == MAX_BLOCKS
    ensures ok ==> Located(all, AllBlocks(p.inodes[ino], p.disk), used - 1, will)
    ensures !ok ==> Stuck(old(p.V()), p.V(), ino, used, got) && FreeCount(p.bits) == 0 && |got| < will - used
    ensures !ok ==> (Inv(p.V()) <==> old(FreeCount(p.bits)) == 0)
  {
    hide AllBlocks, IsSet, InRange, FreeCount, Inv, Shape, Extended, Taken, DiskKept;
    ghost var v := p.V();
    var nd := p.inodes[ino];
    VolumeFits(v);
    Untouched(v);
    TableUnused(nd, v.disk, used);
    assert nd.sectors[12] != 0;
    var table := nd.sectors[12];
    var stored := Table(Read(p.disk, table));
    all := seq(12, _ => 0) + stored;
    got := [];
    ok := true;
    var idx := used;
    while idx < will
      invariant used <= idx <= will && |got| == idx - used && |all| == MAX_BLOCKS
      invariant Growing(v, p.V(), ino, got) && p.inodes == v.inodes
      invariant Merged(all, stored, got, used)
    {
      var lba;
      lba, ok := TakeBlock(p, v, got);
      if !ok {
        TableKept(v, p.V(), ino, got);
        IndirectStuck(v, p.V(), ino, used, got);
        return;
      }
      got := got + [lba];
      all := all[idx := lba];
      idx := idx + 1;
    }
    ghost var u := p.V();
    p.disk := p.disk[table := TableBytes(all[12..])];
    IndirectGrew(v, u, p.V(), ino, used, will, got, stored, all);
    Extend(v, p.V(), ino, used, will, [], got);
    assert [] + got == got;
  }

  // ---------------------------------------------------------------- a growth that fails

  /** A block whose bit was set for nobody breaks the agreement of bitmap and owners. */
  lemma Orphan(v: Vol, w: Vol, ino: nat, got: seq<word>, a: word)
    requires Inv(v) && Growing(v, w, ino, got) && a in got && a !in Refs(w.inodes[ino], w.disk)
    ensures !Inv(w)
  {
    hide AllBlocks, FreeCount, InRange;
    TakenFresh(v, w, ino, got);
    OthersUntouched(v, w, ino, Elems(got));
    OthersOwn(v, w, ino);
    assert IsSet(w, a) && a !in w.reserved;
    forall i ensures !Owns(w, i, a) {
      assert i != ino ==> Owns(w, i, a) == Owns(v, i, a);
    }
  }

  /** Direct blocks are entered as they are taken. */
  lemma DirectStuck(v: Vol, w: Vol, ino: nat, used: nat, got: seq<word>)
    requires Inv(v) && Growing(v, w, ino, got) && Shape(v.inodes[ino], v.disk, used) && used + |got| <= 12
    requires w.inodes[ino].sectors == Assigned(v.inodes[ino].sectors, used, got)
    ensures Inv(w)
  {
    hide AllBlocks, IsSet, InRange, FreeCount, Inv, Shape, Owned, Extended, Taken, DiskKept;
    if got == [] {
      assert w.inodes[ino].sectors == v.inodes[ino].sectors;
      NothingTaken(v, w, ino, used);
    } else {
      DirectGrew(v, w, ino, used, used + |got|, got);
      assert [] + got == got;
      Extend(v, w, ino, used, used + |got|, [], got);
    }
  }

  /** Nothing was taken, and nothing is lost. */
  lemma NothingTaken(v: Vol, w: Vol, ino: nat, used: nat)
    requires Inv(v) && Growing(v, w, ino, []) && w.inodes == v.inodes && Shape(v.inodes[ino], v.disk, used)
    ensures Inv(w)
  {
    hide IsSet, InRange, FreeCount, Inv, Shape, Owned, Extended;
    TableKept(v, w, ino, []);
    var none: seq<word> := [];
    assert none + none == none;
    ShapeBound(v.inodes[ino], v.disk, used);
    Extend(v, w, ino, used, used, [], []);
  }

  lemma ShapeBound(nd: Inode, disk: map<word, Sector>, n: nat)
    requires Shape(nd, disk, n)
    ensures n <= MAX_BLOCKS && (nd.sectors[12] == 0 <==> n <= 12)
  {
  }

  lemma IndirectStuck(v: Vol, w: Vol, ino: nat, used: nat, got: seq<word>)
    requires Inv(v) && Growing(v, w, ino, got) && w.inodes == v.inodes && Shape(v.inodes[ino], v.disk, used)
    requires 12 < used
    requires AllBlocks(w.inodes[ino], w.disk) == AllBlocks(v.inodes[ino], v.disk) && FreeCount(w.bits) == 0
    ensures Inv(w) <==> FreeCount(v.bits) == 0
  {
    hide AllBlocks, IsSet, InRange, FreeCount, Inv, Shape, Owned;
    TakenCount(v, w, got);
    if got == [] {
      NothingTaken(v, w, ino, used);
    } else {
      TakenFresh(v, w, ino, got);
      Orphan(v, w, ino, got, got[0]);
    }
  }

  /** The record of an inode that got its table and some direct blocks, the table still blank. */
  lemma CrossRefs(nd: Inode, d: map<word, Sector>, md: Inode, e: map<word, Sector>, used: nat, table: word,
                  news: seq<word>)
    requires Shape(nd, d, used) && 1 <= used <= 12 && table != 0 && Read(e, table) == ZeroSector()
    requires md.sectors == WithTable(nd.sectors, used, news, table)
    ensures var n := if used + |news| <= 12 then used + |news| else 12;
      forall k :: 0 <= k < MAX_BLOCKS ==> Refs(md, e)[k] == if used <= k < n then news[k - used] else Refs(nd, d)[k]
    ensures Refs(md, e)[140] == table && Refs(nd, d)[140] == 0
    ensures forall k :: used <= k < MAX_BLOCKS ==> Refs(nd, d)[k] == 0
  {
    BlankTable();
  }

  lemma BlankTable()
    ensures Table(ZeroSector()) == NoTable()
  {
  }

  lemma CrossStuck(v: Vol, w: Vol, ino: nat, used: nat, table: word, news: seq<word>)
    requires Inv(v) && Growing(v, w, ino, [table] + news) && Shape(v.inodes[ino], v.disk, used) && 1 <= used <= 12
    requires w.inodes[ino].sectors == WithTable(v.inodes[ino].sectors, used, news, table)
    requires Read(w.disk, table) == ZeroSector()
    requires FreeCount(w.bits) == 0
    ensures Inv(w) <==> FreeCount(v.bits) <= 1 + (12 - used)
  {
    hide AllBlocks, IsSet, InRange, FreeCount, Inv, Shape, Owned, Refs, WithTable, Taken, DiskKept, Table;
    var got := [table] + news;
    TakenCount(v, w, got);
    TakenFresh(v, w, ino, got);
    assert got[0] == table && table in got;
    CrossRefs(v.inodes[ino], v.disk, w.inodes[ino], w.disk, used, table, news);
    if used + |news| <= 12 {
      CrossKept(v, w, ino, used, table, news);
    } else {
      CrossOrphan(v, w, ino, used, table, news);
    }
  }

  lemma CrossKept(v: Vol, w: Vol, ino: nat, used: nat, table: word, news: seq<word>)
    requires Inv(v) && Growing(v, w, ino, [table] + news) && used + |news| <= 12
    requires var r, s := Refs(v.inodes[ino], v.disk), Refs(w.inodes[ino], w.disk);
      && (forall k :: 0 <= k < MAX_BLOCKS ==> s[k] == if used <= k < used + |news| then news[k - used] else r[k])
      && (forall k :: used <= k < MAX_BLOCKS ==> r[k] == 0) && s[140] == table && r[140] == 0
    ensures Inv(w)
  {
    hide AllBlocks, InRange, FreeCount, Refs, Owned;
    var got := [table] + news;
    TakenFresh(v, w, ino, got);
    RefsOwned(v, ino);
    RefsOwned(w, ino);
    RefsGrow(Refs(v.inodes[ino], v.disk), Refs(w.inodes[ino], w.disk), used, used + |news|, [table], news);
    OthersUntouched(v, w, ino, Elems(got));
    Rebalance(v, w, ino, Elems(got), {});
  }

  /** The first block past the twelfth is in no list yet. */
  lemma CrossOrphan(v: Vol, w: Vol, ino: nat, used: nat, table: word, news: seq<word>)
    requires Inv(v) && Growing(v, w, ino, [table] + news) && used <= 12 < used + |news|
    requires var r, s := Refs(v.inodes[ino], v.disk), Refs(w.inodes[ino], w.disk);
      && (forall k :: 0 <= k < MAX_BLOCKS ==>
            s[k] == if used <= k < 12 then news[k - used] else r[k]) && s[140] == table
    ensures !Inv(w)
  {
    hide AllBlocks, InRange, FreeCount, Refs, Owned, Inv, IsSet;
    var got := [table] + news;
    var a := news[12 - used];
    assert forall i :: 0 <= i < |news| ==> got[i + 1] == news[i];
    assert got[13 - used] == a && got[0] == table;
    TakenFresh(v, w, ino, got);
    var s := Refs(w.inodes[ino], w.disk);
    forall k | 0 <= k < MAX_BLOCKS + 1 ensures s[k] != a {
      if used <= k < 12 { assert got[k - used + 1] == s[k]; }
      else if k < MAX_BLOCKS { assert s[k] == Refs(v.inodes[ino], v.disk)[k]; }
    }
    Orphan(v, w, ino, got, a);
  }

  /** Blocks taken from the bitmap are never the table of an inode that already has one. */
  lemma TableKept(v: Vol, w: Vol, ino: nat, got: seq<word>)
    requires Inv(v) && Growing(v, w, ino, got) && w.inodes == v.inodes
    ensures AllBlocks(w.inodes[ino], w.disk) == AllBlocks(v.inodes[ino], v.disk)
  {
    hide IsSet, InRange, FreeCount, Owned, Inv;
    TakenFresh(v, w, ino, got);
    var r := Refs(v.inodes[ino], v.disk);
    assert r[140] in r;
  }

  lemma WroteTo(d: map<word, Sector>, a: word, s: Sector)
    ensures Read(d[a := s], a) == s
  {
  }

  lemma WriteKept(v: Vol, u: Vol, got: seq<word>, a: word, s: Sector)
    requires DiskKept(v, u, Elems(got)) && a != 0
    ensures DiskKept(v, u.(disk := u.disk[a := s]), Elems(got) + ({a} - {0}))
  {
  }

  lemma IndirectBlocks(nd: Inode, d: map<word, Sector>, e: map<word, Sector>,
                       used: nat, will: nat, got: seq<word>, stored: seq<word>, all: seq<word>)
    requires nd.sectors[12] != 0 && 12 < used < will <= MAX_BLOCKS
    requires |got| == will - used && |all| == MAX_BLOCKS
    requires stored == Table(Read(d, nd.sectors[12]))
    requires Read(e, nd.sectors[12]) == TableBytes(all[12..])
    requires Merged(all, stored, got, used)
    ensures BlocksGrew(AllBlocks(nd, d), AllBlocks(nd, e), used, will, got)
    ensures Located(all, AllBlocks(nd, e), used - 1, will)
  {
    hide Table, TableBytes, WordAt, WordByte, Read;
    TableRoundTrip(all[12..]);
    var a, b := AllBlocks(nd, d), AllBlocks(nd, e);
    assert a == nd.sectors[..12] + stored && b == nd.sectors[..12] + all[12..];
    forall k | 0 <= k < MAX_BLOCKS ensures b[k] == if used <= k < will then got[k - used] else a[k] {
      if k >= 12 {
        assert b[k] == all[k] && a[k] == stored[k - 12];
      }
    }
  }

  lemma IndirectGrew(v: Vol, u: Vol, w: Vol, ino: nat, used: nat, will: nat, got: seq<word>, stored: seq<word>,
                     all: seq<word>)
    requires Growing(v, u, ino, got) && u.inodes == v.inodes
    requires Shape(v.inodes[ino], v.disk, used) && 12 < used < will <= MAX_BLOCKS
    requires |got| == will - used && |all| == MAX_BLOCKS
    requires stored == Table(Read(v.disk, v.inodes[ino].sectors[12]))
    requires w == u.(disk := u.disk[v.inodes[ino].sectors[12] := TableBytes(all[12..])])
    requires Merged(all, stored, got, used)
    ensures Grew(v, w, ino, used, will, [], got)
    ensures Located(all, AllBlocks(w.inodes[ino], w.disk), used - 1, will)
  {
    hide IsSet, InRange, AllBlocks, Refs, Owned, FreeCount, Inv, Taken, TableBytes, Table, Shape, DiskKept, Read,
         Merged, Located, BlocksGrew;
    var nd := v.inodes[ino];
    assert w.inodes[ino] == nd && w.inodes == v.inodes[ino := nd];
    assert [] + got == got;
    WroteTo(u.disk, nd.sectors[12], TableBytes(all[12..]));
    TableUnused(nd, v.disk, used);
    WriteKept(v, u, got, nd.sectors[12], TableBytes(all[12..]));
    BitsApart(v, u, w, got);
    IndirectBlocks(nd, v.disk, w.disk, used, will, got, stored, all);
  }

  /** A file's first write gives it block 0; later writes find it. */
  method FirstBlock(p: Partition, ino: nat) returns (ok: bool, ghost got: seq<word>)
    requires Inv(p.V()) && ino in p.inodes && FileOk(p.inodes[ino], p.disk)
    modifies p
    ensures |got| == if ok && old(p.inodes[ino]).sectors[0] == 0 then 1 else 0
    ensures !ok ==> p.V() == old(p.V()) && old(p.inodes[ino]).sectors[0] == 0 && FreeCount(p.bits) == 0
    ensures ok ==> Inv(p.V()) && ino in p.inodes && p.inodes[ino].sectors[0] != 0 && FileOk(p.inodes[ino], p.disk)
    ensures ok ==> p.inodes[ino].size == old(p.inodes[ino]).size
    ensures ok ==> Extended(old(p.V()), p.V(), ino, BlockCount(old(p.inodes[ino])), SecOf(p.inodes[ino].size) + 1, got)
  {
    hide AllBlocks, IsSet, InRange, FreeCount, Inv, Shape, Taken, DiskKept, Extended;
    ghost var v := p.V();
    VolumeFits(v);
    Untouched(v);
    got := [];
    ok := true;
    if p.inodes[ino].sectors[0] == 0 {
      var lba;
      lba, ok := TakeBlock(p, v, []);
      if !ok { return; }
      got := [lba];
      assert [] + [lba] == got;
      var nd := p.inodes[ino];
      ghost var u := p.V();
      p.inodes := p.inodes[ino := nd.(sectors := nd.sectors[0 := lba])];
      InodesApart(v, u, p.inodes, got);
      assert p.inodes[ino].sectors == Assigned(nd.sectors, 0, got);
      DirectGrew(v, p.V(), ino, 0, 1, got);
      Extend(v, p.V(), ino, 0, 1, [], got);
      BlockZero(v, p.V(), ino, got);
    } else {
      NothingGrew(v, ino, BlockCount(p.inodes[ino]));
    }
  }

  lemma BlockZero(v: Vol, w: Vol, ino: nat, got: seq<word>)
    requires ino in v.inodes && FileOk(v.inodes[ino], v.disk) && v.inodes[ino].sectors[0] == 0
    requires Extended(v, w, ino, 0, 1, got)
    ensures FileOk(w.inodes[ino], w.disk) && w.inodes[ino].sectors[0] != 0
  {
    hide IsSet, InRange, Owned, Refs, FreeCount, Taken;
    assert AllBlocks(w.inodes[ino], w.disk)[0] == w.inodes[ino].sectors[0];
  }

  lemma NothingGrew(v: Vol, ino: nat, used: nat)
    requires Inv(v) && ino in v.inodes && Shape(v.inodes[ino], v.disk, used)
    ensures Extended(v, v, ino, used, used, [])
  {
    hide IsSet, InRange, Owned, Refs, FreeCount, AllBlocks;
    Untouched(v);
  }

  // ---------------------------------------------------------------- the copying phase

  lemma Within(i: nat, q: nat)
    requires q * 512 <= i < q * 512 + 512
    ensures SecOf(i) == q && OffOf(i) == i - q * 512
  {
  }

  /** Writing the chunk into block q of the file makes the bytes up to its end right. */
  lemma ChunkStep(blocks: seq<word>, d: map<word, Sector>, target: seq<byte>, q: nat, off: nat, chunk: nat,
                  base: Sector, io: Sector)
    requires |blocks| == MAX_BLOCKS && q * 512 + off + chunk <= |target| < MAX_BLOCKS * BLOCK_SIZE
    requires 0 < chunk <= 512 - off && off < 512
    requires forall k :: 0 <= k < q ==> blocks[k] != blocks[q]
    requires Spells(blocks, d, target[..q * 512 + off])
    requires off == 0 || base == Read(d, blocks[q])
    requires io == Patched(base, off, target[q * 512 + off..q * 512 + off + chunk])
    ensures Spells(blocks, d[blocks[q] := io], target[..q * 512 + off + chunk])
  {
    var e := d[blocks[q] := io];
    forall i | 0 <= i < q * 512 + off + chunk ensures ByteAt(blocks, e, i) == target[i] {
      if i < q * 512 {
        assert SecOf(i) < q;
        assert ByteAt(blocks, e, i) == ByteAt(blocks, d, i) == target[..q * 512 + off][i];
      } else {
        Within(i, q);
        if i < q * 512 + off {
          assert io[i - q * 512] == base[i - q * 512];
          assert ByteAt(blocks, d, i) == target[..q * 512 + off][i];
        }
      }
    }
  }

  /** The volume while one file's bytes are being copied out. */
  ghost predicate Copying(v: Vol, w: Vol, ino: nat, size: nat, touched: set<word>) {
    && ino in v.inodes && w.start == v.start && w.bits == v.bits && w.reserved == v.reserved
    && w.inodes == v.inodes[ino := v.inodes[ino].(size := size)]
    && DiskKept(v, w, touched)
  }

  lemma CopyingStep(v: Vol, d: map<word, Sector>, ino: nat, size: nat, chunk: nat, touched: set<word>, a: word,
                    io: Sector)
    requires ino in v.inodes && a in touched
    requires Copying(v, v.(inodes := v.inodes[ino := v.inodes[ino].(size := size)], disk := d), ino, size, touched)
    ensures Copying(v, v.(inodes := v.inodes[ino := v.inodes[ino].(size := size + chunk)], disk := d[a := io]),
                    ino, size + chunk, touched)
  {
  }

  lemma NextBlock(size: nat, chunk: nat)
    requires chunk <= 512 - OffOf(size)
    ensures chunk == 512 - OffOf(size) ==> OffOf(size + chunk) == 0
  {
  }

  /** fd_pos is 32 bits wide and wraps. */
  function Advance(pos: word, n: nat): word { (pos + n) % 0x1_0000_0000 }

  /** The position file_write leaves behind: the last byte, or the top word for an empty file. */
  function LastByte(size: nat): word { (size - 1) % 0x1_0000_0000 }

  lemma AdvanceLast(size: nat, n: nat)
    ensures Advance(LastByte(size), n) == LastByte(size + n)
  {
  }

  /** A sector with `data` placed at `off`. */
  function Patched(base: Sector, off: nat, data: seq<byte>): Sector
    requires off + |data| <= 512
  {
    base[..off] + data + base[off + |data|..]
  }

  function BlockSet(blocks: seq<word>, lo: nat, hi: nat): set<word>
    requires lo <= hi <= |blocks|
  {
    set k | lo <= k < hi :: blocks[k]
  }

  lemma InBlockSet(blocks: seq<word>, lo: nat, hi: nat, k: nat)
    requires lo <= k < hi <= |blocks|
    ensures blocks[k] in BlockSet(blocks, lo, hi)
  {
  }

  method CopyOut(p: Partition, f: OpenFile, buf: seq<byte>, all: seq<word>)
    requires Inv(p.V()) && f.ino in p.inodes && |all| == MAX_BLOCKS
    requires p.inodes[f.ino].size + |buf| < MAX_BLOCKS * BLOCK_SIZE
    requires var nd := p.inodes[f.ino]; var will := SecOf(nd.size + |buf|) + 1;
             && Shape(nd, p.disk, will)
             && Located(all, AllBlocks(nd, p.disk), SecOf(nd.size), will)
    modifies p, f
    ensures var nd := old(p.inodes[f.ino]); var blocks := old(AllBlocks(p.inodes[f.ino], p.disk));
            var size := nd.size + |buf|;
            && Copying(old(p.V()), p.V(), f.ino, size, BlockSet(blocks, SecOf(nd.size), SecOf(size) + 1))
            && Spells(blocks, p.disk, old(Content(p.inodes[f.ino], p.disk)) + buf)
    ensures f.fdPos == LastByte(old(p.inodes[f.ino]).size + |buf|)
  {
    hide SecOf, OffOf, LastByte, Advance, Patched, BlockSet, AllBlocks, IsSet, InRange, FreeCount, Inv, Spells, Shape;
    ghost var v := p.V();
    ghost var nd := p.inodes[f.ino];
    ghost var blocks := AllBlocks(nd, p.disk);
    ghost var target := Content(nd, p.disk) + buf;
    SecMonotone(nd.size, |target|);
    ghost var touched := BlockSet(blocks, SecOf(nd.size), SecOf(|target|) + 1);
    BlocksApart(v, f.ino, SecOf(|target|) + 1);
    assert target[..nd.size] == Content(nd, p.disk);
    ContentSpelled(nd, p.disk);
    var written := 0;
    var left := |buf|;
    var first := true;
    f.fdPos := LastByte(p.inodes[f.ino].size);
    while written < |buf|
      invariant 0 <= left && written + left == |buf| && |target| == nd.size + |buf| && f.ino in p.inodes
      invariant p.inodes[f.ino].size == nd.size + written
      invariant Copying(v, p.V(), f.ino, nd.size + written, touched)
      invariant Spells(blocks, p.disk, target[..nd.size + written])
      invariant first <==> written == 0
      invariant 0 < written < |buf| ==> OffOf(nd.size + written) == 0
      invariant f.fdPos == LastByte(nd.size + written)
    {
      var io := ZeroSector();
      var size := p.inodes[f.ino].size;
      Position(size);
      SecMonotone(size, |target|);
      SecMonotone(nd.size, size);
      var secIdx := SecOf(size);
      var secLba := all[secIdx];
      var off := OffOf(size);
      var secLeft := 512 - off;
      var chunk := if left < secLeft then left else secLeft;
      if first {
        io := Read(p.disk, secLba);
        first := false;
      }
      InBlockSet(blocks, SecOf(nd.size), SecOf(|target|) + 1, secIdx);
      assert secLba == blocks[secIdx];
      ghost var base, d := io, p.disk;
      io := Patched(io, off, buf[written..written + chunk]);
      TailSlice(Content(nd, v.disk), buf, written, written + chunk);
      p.disk := p.disk[secLba := io];
      ChunkStep(blocks, d, target, secIdx, off, chunk, base, io);
      p.inodes := p.inodes[f.ino := p.inodes[f.ino].(size := size + chunk)];
      CopyingStep(v, d, f.ino, size, chunk, touched, secLba, io);
      NextBlock(size, chunk);
      AdvanceLast(size, chunk);
      f.fdPos := Advance(f.fdPos, chunk);
      written := written + chunk;
      left := left - chunk;
    }
    assert target[..nd.size + written] == target;
  }

  lemma TailSlice(c: seq<byte>, buf: seq<byte>, i: nat, j: nat)
    requires i <= j <= |buf|
    ensures buf[i..j] == (c + buf)[|c| + i..|c| + j]
  {
  }

  lemma BlocksApart(v: Vol, ino: nat, n: nat)
    requires Inv(v) && ino in v.inodes && Shape(v.inodes[ino], v.disk, n)
    ensures var b := AllBlocks(v.inodes[ino], v.disk);
      forall i, j :: 0 <= i < j < n ==> b[i] != b[j]
  {
    hide IsSet, InRange, Owned, AllBlocks;
    RefsOwned(v, ino);
  }

  /** A descriptor in the global file table: fd_pos and the inode it is open on. */
  class OpenFile {
    const ino: nat
    var fdPos: word

    constructor (ino: nat)
      ensures this.ino == ino && fdPos == 0
    {
      this.ino, fdPos := ino, 0;
    }
  }

  // ---------------------------------------------------------------- file_write

  /**
   When a write that runs out of blocks leaves the bitmap in agreement with the owners: growth within the direct
   blocks always, growth across block 12 if no more than the table and the direct blocks were left, growth in the
   table only if nothing was.
   */
  predicate Recovers(nd: Inode, count: nat, free: nat) {
    var used := SecOf(nd.size) + 1;
    var will := SecOf(nd.size + count) + 1;
    var left := free - if nd.sectors[0] == 0 then 1 else 0;
    will <= 12 || left <= if used <= 12 then 13 - used else 0
  }

  /** The effect of a write that succeeds. */
  ghost predicate Appended(v: Vol, w: Vol, ino: nat, buf: seq<byte>) {
    && ino in v.inodes && ino in w.inodes && Inv(w) && FileOk(w.inodes[ino], w.disk)
    && v.inodes[ino].size + |buf| < MAX_BLOCKS * BLOCK_SIZE
    && Content(w.inodes[ino], w.disk) == Content(v.inodes[ino], v.disk) + buf
    && OthersKept(v, w, ino)
    && (forall a :: IsSet(v, a) ==> IsSet(w, a))
    && FreeCount(w.bits) + Need(v.inodes[ino], |buf|) == FreeCount(v.bits)
  }

  /** What a file gained is the first free blocks, and they lie on the disk in the order of the file. */
  ghost predicate LaidOut(v: Vol, w: Vol, ino: nat) {
    && FirstFit(v, w) && ino in w.inodes
    && var all := AllBlocks(w.inodes[ino], w.disk);
       forall j, k :: 0 <= j < k < MAX_BLOCKS && all[k] != 0 && !IsSet(v, all[j]) && !IsSet(v, all[k]) ==>
         all[j] < all[k]
  }

  /** The first block and then the others. */
  lemma LaidOutTwice(v: Vol, u: Vol, w: Vol, ino: nat, got0: seq<word>, got: seq<word>, used0: nat, used: nat,
                     will: nat)
    requires Inv(v) && ino in v.inodes && Shape(v.inodes[ino], v.disk, used0)
    requires Extended(v, u, ino, used0, used, got0) && Extended(u, w, ino, used, will, got)
    requires used0 == used || (used0 == 0 && used == 1)
    requires used <= will <= MAX_BLOCKS
    ensures LaidOut(v, w, ino)
  {
    hide FreeCount, Owned, OthersKept, AllBlocks;
    FirstFitTwice(v, u, w);
    RefsOwned(v, ino);
    var a, b, c := AllBlocks(v.inodes[ino], v.disk), AllBlocks(u.inodes[ino], u.disk), AllBlocks(w.inodes[ino], w.disk);
    forall k | 0 <= k < used0 ensures IsSet(v, c[k]) {
      assert c[k] == b[k] == a[k];
      assert Refs(v.inodes[ino], v.disk)[k] == a[k];
      assert Owns(v, ino, a[k]);
    }
    forall j, k | 0 <= j < k < MAX_BLOCKS && c[k] != 0 && !IsSet(v, c[j]) && !IsSet(v, c[k]) ensures c[j] < c[k] {
      assert used0 <= j && k < will;
      assert c[k] == got[|got| - (will - k)] && c[k] in got && !IsSet(u, c[k]);
      if j < used {
        assert c[j] == b[j] == got0[|got0| - 1];
        assert c[j] in got0 && IsSet(u, c[j]);
        assert InRange(v, c[k]);
      } else {
        assert c[j] == got[|got| - (will - j)];
      }
    }
  }

  lemma FirstFitTwice(v: Vol, u: Vol, w: Vol)
    requires FirstFit(v, u) && FirstFit(u, w) && u.start == v.start && |u.bits| == |v.bits|
    requires forall a :: IsSet(v, a) ==> IsSet(u, a)
    requires forall a :: IsSet(u, a) ==> IsSet(w, a)
    ensures FirstFit(v, w)
  {
    assert forall a :: InRange(v, a) == InRange(u, a);
  }

  /** The effect of a write that runs out of blocks: no byte of any file moves. */
  ghost predicate Unharmed(v: Vol, w: Vol, ino: nat) {
    && ino in v.inodes && ino in w.inodes && OthersKept(v, w, ino)
    && w.inodes[ino].size == v.inodes[ino].size < MAX_BLOCKS * BLOCK_SIZE
    && Content(w.inodes[ino], w.disk) == Content(v.inodes[ino], v.disk)
  }

  lemma KeptTwice(v: Vol, u: Vol, w: Vol, ino: nat)
    requires OthersKept(v, u, ino) && OthersKept(u, w, ino)
    ensures OthersKept(v, w, ino)
  {
    hide Refs;
    forall j | j in v.inodes && j != ino ensures Refs(u.inodes[j], u.disk) == Refs(v.inodes[j], v.disk) {
      SameRefs(v.inodes[j], v.disk, u.disk);
    }
  }

  /** Blocks below the size keep their place and bytes, so the content is the same. */
  lemma SameContent(nd: Inode, d: map<word, Sector>, md: Inode, e: map<word, Sector>, used: nat)
    requires md.size == nd.size < MAX_BLOCKS * BLOCK_SIZE
    requires nd.size > 0 ==> SecOf(nd.size) < used
    requires forall k :: 0 <= k < used <= MAX_BLOCKS ==>
      var a := AllBlocks(nd, d)[k]; AllBlocks(md, e)[k] == a && Read(e, a) == Read(d, a)
    requires used <= MAX_BLOCKS
    ensures Content(md, e) == Content(nd, d)
  {
    hide AllBlocks, SecOf, OffOf;
    forall i | 0 <= i < nd.size ensures Content(md, e)[i] == Content(nd, d)[i] {
      SecMonotone(i, nd.size);
    }
  }

  lemma ExtendedContent(v: Vol, w: Vol, ino: nat, used: nat, will: nat, got: seq<word>)
    requires Extended(v, w, ino, used, will, got) && used <= will
    requires v.inodes[ino].size < MAX_BLOCKS * BLOCK_SIZE
    requires v.inodes[ino].size > 0 ==> SecOf(v.inodes[ino].size) < used
    ensures Content(w.inodes[ino], w.disk) == Content(v.inodes[ino], v.disk)
  {
    hide AllBlocks, SecOf, OffOf, Taken, OthersKept, Content;
    SameContent(v.inodes[ino], v.disk, w.inodes[ino], w.disk, used);
  }

  lemma StuckUnharmed(v: Vol, w: Vol, ino: nat, got: seq<word>)
    requires Inv(v) && ino in v.inodes && v.inodes[ino].size < MAX_BLOCKS * BLOCK_SIZE
    requires Shape(v.inodes[ino], v.disk, SecOf(v.inodes[ino].size) + 1)
    requires Stuck(v, w, ino, SecOf(v.inodes[ino].size) + 1, got)
    ensures Unharmed(v, w, ino)
  {
    hide SecOf, OffOf, AllBlocks, IsSet, InRange, FreeCount, Inv, Content;
    var used := SecOf(v.inodes[ino].size) + 1;
    TakenFresh(v, w, ino, got);
    OthersUntouched(v, w, ino, Elems(got));
    RefsOwned(v, ino);
    forall k | 0 <= k < used
      ensures Read(w.disk, AllBlocks(v.inodes[ino], v.disk)[k]) == Read(v.disk, AllBlocks(v.inodes[ino], v.disk)[k])
    {
      assert AllBlocks(v.inodes[ino], v.disk)[k] in Refs(v.inodes[ino], v.disk);
    }
    SameContent(v.inodes[ino], v.disk, w.inodes[ino], w.disk, used);
  }

  lemma Copied(v: Vol, w: Vol, ino: nat, size: nat, lo: nat, hi: nat, bytes: seq<byte>)
    requires Inv(v) && ino in v.inodes && lo <= hi <= MAX_BLOCKS && |bytes| == size
    requires Shape(v.inodes[ino], v.disk, hi)
    requires Copying(v, w, ino, size, BlockSet(AllBlocks(v.inodes[ino], v.disk), lo, hi))
    requires Spells(AllBlocks(v.inodes[ino], v.disk), w.disk, bytes)
    ensures OthersKept(v, w, ino) && Inv(w) && Shape(w.inodes[ino], w.disk, hi)
    ensures Content(w.inodes[ino], w.disk) == bytes
    ensures AllBlocks(w.inodes[ino], w.disk) == AllBlocks(v.inodes[ino], v.disk)
  {
    hide IsSet, InRange, FreeCount, Inv, Owned, Spells, BlockSet, AllBlocks, Refs, Content, Shape, OthersKept;
    CopiedRefs(v, w, ino, size, lo, hi);
    BlocksOwned(v, ino, lo, hi);
    OthersUntouched(v, w, ino, BlockSet(AllBlocks(v.inodes[ino], v.disk), lo, hi));
    CopiedInv(v, w, ino);
    SameShape(v.inodes[ino], v.disk, w.inodes[ino], w.disk, hi);
    SpelledContent(w.inodes[ino], w.disk, bytes);
  }

  lemma BlocksOwned(v: Vol, ino: nat, lo: nat, hi: nat)
    requires ino in v.inodes && lo <= hi <= MAX_BLOCKS && Shape(v.inodes[ino], v.disk, hi)
    ensures forall a :: a in BlockSet(AllBlocks(v.inodes[ino], v.disk), lo, hi) ==> Owns(v, ino, a)
  {
    hide AllBlocks;
    forall a | a in BlockSet(AllBlocks(v.inodes[ino], v.disk), lo, hi) ensures Owns(v, ino, a) {
      var k :| lo <= k < hi && a == AllBlocks(v.inodes[ino], v.disk)[k];
      assert Refs(v.inodes[ino], v.disk)[k] == a;
    }
  }

  lemma SameShape(nd: Inode, d: map<word, Sector>, md: Inode, e: map<word, Sector>, n: nat)
    requires Shape(nd, d, n) && AllBlocks(md, e) == AllBlocks(nd, d) && md.sectors == nd.sectors
    ensures Shape(md, e, n)
  {
  }

  lemma SpelledContent(nd: Inode, disk: map<word, Sector>, bytes: seq<byte>)
    requires Spells(AllBlocks(nd, disk), disk, bytes) && nd.size == |bytes|
    ensures Content(nd, disk) == bytes
  {
  }

  lemma CopiedRefs(v: Vol, w: Vol, ino: nat, size: nat, lo: nat, hi: nat)
    requires Inv(v) && ino in v.inodes && lo <= hi <= MAX_BLOCKS && Shape(v.inodes[ino], v.disk, hi)
    requires Copying(v, w, ino, size, BlockSet(AllBlocks(v.inodes[ino], v.disk), lo, hi))
    ensures Refs(w.inodes[ino], w.disk) == Refs(v.inodes[ino], v.disk)
    ensures AllBlocks(w.inodes[ino], w.disk) == AllBlocks(v.inodes[ino], v.disk)
  {
    hide IsSet, InRange, FreeCount, Owned, Shape;
    var blocks := AllBlocks(v.inodes[ino], v.disk);
    var table := v.inodes[ino].sectors[12];
    RefsOwned(v, ino);
    assert NoRepeats(Refs(v.inodes[ino], v.disk));
    if table != 0 {
      forall k | lo <= k < hi ensures blocks[k] != table {
        assert Refs(v.inodes[ino], v.disk)[k] != Refs(v.inodes[ino], v.disk)[140];
      }
      assert table !in BlockSet(blocks, lo, hi);
      assert Read(w.disk, table) == Read(v.disk, table);
    }
  }

  lemma CopiedInv(v: Vol, w: Vol, ino: nat)
    requires Inv(v) && OthersKept(v, w, ino) && ino in v.inodes && ino in w.inodes && w.bits == v.bits
    requires Refs(w.inodes[ino], w.disk) == Refs(v.inodes[ino], v.disk)
    ensures Inv(w)
  {
    hide Refs, FreeCount;
    assert forall a :: IsSet(w, a) == IsSet(v, a);
    Rebalance(v, w, ino, {}, {});
  }

  lemma SelfUnharmed(v: Vol, ino: nat)
    requires ino in v.inodes && v.inodes[ino].size < MAX_BLOCKS * BLOCK_SIZE
    ensures Unharmed(v, v, ino)
  {
  }

  /** The address needed when no block is added: the last one, directly or through the table. */
  method InPlace(p: Partition, ino: nat, used: nat) returns (all: seq<word>)
    requires ino in p.inodes && Shape(p.inodes[ino], p.disk, used) && 1 <= used <= MAX_BLOCKS
    ensures |all| == MAX_BLOCKS && Located(all, AllBlocks(p.inodes[ino], p.disk), used - 1, used)
  {
    var nd := p.inodes[ino];
    all := seq(MAX_BLOCKS, _ => 0);
    if used <= 12 {
      all := all[used - 1 := nd.sectors[used - 1]];
    } else {
      assert nd.sectors[12] != 0;
      all := all[..12] + Table(Read(p.disk, nd.sectors[12]));
    }
  }

  lemma FirstKept(v: Vol, w: Vol, ino: nat, got: seq<word>)
    requires ino in v.inodes && FileOk(v.inodes[ino], v.disk)
    requires Extended(v, w, ino, BlockCount(v.inodes[ino]), SecOf(v.inodes[ino].size) + 1, got)
    ensures ino in w.inodes && OthersKept(v, w, ino) && w.inodes[ino].size == v.inodes[ino].size
    ensures Shape(w.inodes[ino], w.disk, SecOf(w.inodes[ino].size) + 1)
    ensures Content(w.inodes[ino], w.disk) == Content(v.inodes[ino], v.disk)
    ensures forall a :: IsSet(v, a) ==> IsSet(w, a)
    ensures FreeCount(w.bits) + |got| == FreeCount(v.bits)
  {
    hide AllBlocks, SecOf, OffOf, Content, InRange, FreeCount, IsSet;
    ExtendedContent(v, w, ino, BlockCount(v.inodes[ino]), SecOf(v.inodes[ino].size) + 1, got);
  }

  lemma GrownShape(v: Vol, w: Vol, ino: nat, used: nat, will: nat, got: seq<word>)
    requires Extended(v, w, ino, used, will, got) && used <= will && v.inodes[ino].size < MAX_BLOCKS * BLOCK_SIZE
    requires v.inodes[ino].size > 0 ==> SecOf(v.inodes[ino].size) < used
    ensures ino in w.inodes && OthersKept(v, w, ino) && w.inodes[ino].size == v.inodes[ino].size
    ensures Shape(w.inodes[ino], w.disk, will) && |got| == will - used + (if used <= 12 < will then 1 else 0)
    ensures Content(w.inodes[ino], w.disk) == Content(v.inodes[ino], v.disk)
    ensures forall a :: IsSet(v, a) ==> IsSet(w, a)
    ensures FreeCount(w.bits) + |got| == FreeCount(v.bits)
  {
    hide AllBlocks, SecOf, OffOf, Content, InRange, FreeCount, IsSet;
    ExtendedContent(v, w, ino, used, will, got);
  }

  lemma TakenCount(v: Vol, w: Vol, got: seq<word>)
    requires Taken(v, w, got)
    ensures FreeCount(w.bits) + |got| == FreeCount(v.bits)
  {
  }

  lemma SameBitmap(v: Vol, w: Vol)
    requires w.start == v.start && w.bits == v.bits
    ensures forall a :: IsSet(w, a) == IsSet(v, a)
  {
  }

  lemma SameLayout(v: Vol, u: Vol, w: Vol, ino: nat)
    requires LaidOut(v, u, ino) && ino in w.inodes && w.start == u.start && w.bits == u.bits
    requires AllBlocks(w.inodes[ino], w.disk) == AllBlocks(u.inodes[ino], u.disk)
    ensures LaidOut(v, w, ino)
  {
    hide AllBlocks;
    SameBitmap(u, w);
  }

  lemma WrittenOk(nd: Inode, disk: map<word, Sector>, will: nat)
    requires Shape(nd, disk, will) && will == SecOf(nd.size) + 1 && nd.size < MAX_BLOCKS * BLOCK_SIZE
    ensures FileOk(nd, disk)
  {
    hide AllBlocks, SecOf;
    DirectUnused(nd, disk, will, 0);
  }

  lemma UnharmedTwice(v: Vol, u: Vol, w: Vol, ino: nat)
    requires ino in v.inodes && ino in u.inodes && OthersKept(v, u, ino) && Unharmed(u, w, ino)
    requires u.inodes[ino].size == v.inodes[ino].size
    requires Content(u.inodes[ino], u.disk) == Content(v.inodes[ino], v.disk)
    ensures Unharmed(v, w, ino)
  {
    hide Content;
    KeptTwice(v, u, w, ino);
  }

  lemma FirstUsed(v: Vol, ino: nat)
    requires ino in v.inodes && FileOk(v.inodes[ino], v.disk)
    ensures var n, m := BlockCount(v.inodes[ino]), SecOf(v.inodes[ino].size) + 1; n == m || (n == 0 && m == 1)
    ensures Shape(v.inodes[ino], v.disk, BlockCount(v.inodes[ino]))
  {
    hide AllBlocks;
  }

  /** The phases of a write that succeeds: the first block, the others, the bytes. */
  lemma Wrote(v: Vol, u: Vol, x: Vol, w: Vol, ino: nat, got0: seq<word>, got: seq<word>, used: nat, will: nat,
              buf: seq<byte>)
    requires Inv(v) && Inv(x) && ino in v.inodes && Shape(v.inodes[ino], v.disk, BlockCount(v.inodes[ino]))
    requires var n := BlockCount(v.inodes[ino]); n == used || (n == 0 && used == 1)
    requires Extended(v, u, ino, BlockCount(v.inodes[ino]), used, got0) && Extended(u, x, ino, used, will, got)
    requires var size := v.inodes[ino].size + |buf|;
      && size < MAX_BLOCKS * BLOCK_SIZE && will == SecOf(size) + 1 <= MAX_BLOCKS
      && used == SecOf(v.inodes[ino].size) + 1
      && Copying(x, w, ino, size, BlockSet(AllBlocks(x.inodes[ino], x.disk), used - 1, will))
    requires used <= will && Content(x.inodes[ino], x.disk) == Content(v.inodes[ino], v.disk)
    requires Spells(AllBlocks(x.inodes[ino], x.disk), w.disk, Content(v.inodes[ino], v.disk) + buf)
    requires OthersKept(v, u, ino) && OthersKept(u, x, ino) && Shape(x.inodes[ino], x.disk, will)
    requires forall a :: IsSet(v, a) ==> IsSet(x, a)
    requires FreeCount(x.bits) + Need(v.inodes[ino], |buf|) == FreeCount(v.bits)
    ensures Appended(v, w, ino, buf) && LaidOut(v, w, ino)
  {
    hide SecOf, OffOf, AllBlocks, IsSet, InRange, FreeCount, Inv, Shape, Content, Extended, OthersKept, Spells,
         LaidOut, BlockSet, Need;
    Copied(x, w, ino, v.inodes[ino].size + |buf|, used - 1, will, Content(v.inodes[ino], v.disk) + buf);
    KeptTwice(v, u, x, ino);
    KeptTwice(v, x, w, ino);
    SameBitmap(x, w);
    LaidOutTwice(v, u, x, ino, got0, got, BlockCount(v.inodes[ino]), used, will);
    SameLayout(v, x, w, ino);
    WrittenOk(w.inodes[ino], w.disk, will);
  }

  /** The branches of file_write that find or take the blocks from `used` to `will`. */
  method Grow(p: Partition, ino: nat, used: nat, will: nat) returns (all: seq<word>, ok: bool, ghost got: seq<word>)
    requires Inv(p.V()) && ino in p.inodes && Shape(p.inodes[ino], p.disk, used) && 1 <= used <= will <= MAX_BLOCKS
    modifies p
    ensures ok ==> Inv(p.V()) && Extended(old(p.V()), p.V(), ino, used, will, got) && |all| == MAX_BLOCKS
    ensures ok ==> Located(all, AllBlocks(p.inodes[ino], p.disk), used - 1, will)
    ensures !ok ==> Stuck(old(p.V()), p.V(), ino, used, got) && FreeCount(p.bits) == 0
    ensures !ok ==> |got| < will - used + if used <= 12 < will then 1 else 0
    ensures !ok ==>
      (Inv(p.V()) <==> will <= 12 || old(FreeCount(p.bits)) <= if used <= 12 then 13 - used else 0)
  {
    hide AllBlocks, IsSet, InRange, FreeCount, Inv, Shape, Extended, Taken, Located, Stuck;
    ok := true;
    if will == used {
      all := InPlace(p, ino, used);
      NothingGrew(p.V(), ino, used);
      got := [];
    } else if will <= 12 {
      all, ok, got := GrowDirect(p, ino, used, will);
    } else if used <= 12 {
      all, ok, got := GrowCross(p, ino, used, will);
    } else {
      all, ok, got := GrowIndirect(p, ino, used, will);
    }
  }

  /**
   Appends `buf`. The result is -1 exactly when the file would outgrow 140 blocks or the bitmap has too few free ones;
   a size of exactly 140 blocks fails the assertion on the block count. After a failure for lack of blocks the bitmap
   still matches the owners exactly when no block was taken that only the unwritten table would have named.
   */
  method FileWrite(p: Partition, f: OpenFile, buf: seq<byte>) returns (r: int)
    requires Inv(p.V()) && f.ino in p.inodes && FileOk(p.inodes[f.ino], p.disk)
    requires p.inodes[f.ino].size + |buf| < 0x1_0000_0000 && p.inodes[f.ino].size + |buf| != MAX_BLOCKS * BLOCK_SIZE
    modifies p, f
    ensures old(p.inodes[f.ino].size) + |buf| > MAX_BLOCKS * BLOCK_SIZE ==>
      r == -1 && p.V() == old(p.V()) && f.fdPos == old(f.fdPos)
    ensures old(p.inodes[f.ino].size) + |buf| < MAX_BLOCKS * BLOCK_SIZE ==>
      (r == -1 <==> old(FreeCount(p.bits)) < Need(old(p.inodes[f.ino]), |buf|))
    ensures r == -1 ==> Unharmed(old(p.V()), p.V(), f.ino)
                        && (p.inodes[f.ino].size + |buf| < MAX_BLOCKS * BLOCK_SIZE ==>
                              FreeCount(p.bits) < Need(p.inodes[f.ino], |buf|))
    ensures r == -1 && old(p.inodes[f.ino].size) + |buf| < MAX_BLOCKS * BLOCK_SIZE ==>
      (Inv(p.V()) <==> old(Recovers(p.inodes[f.ino], |buf|, FreeCount(p.bits)))) && f.fdPos == old(f.fdPos)
    ensures r != -1 ==>
      r == |buf| && Appended(old(p.V()), p.V(), f.ino, buf) && f.fdPos == LastByte(p.inodes[f.ino].size)
    ensures r != -1 ==> LaidOut(old(p.V()), p.V(), f.ino)
  {
    hide SecOf, OffOf, AllBlocks, IsSet, InRange, FreeCount, Inv, Shape, Content, Extended, OthersKept, Spells,
         Located, Taken, LaidOut;
    ghost var v := p.V();
    var ino := f.ino;
    SecMonotone(p.inodes[ino].size, p.inodes[ino].size + |buf|);
    if p.inodes[ino].size + |buf| > BLOCK_SIZE * 140 {
      SelfUnharmed(v, ino);
      return -1;
    }
    var ok;
    ghost var got0, got;
    ok, got0 := FirstBlock(p, ino);
    if !ok {
      SelfUnharmed(v, ino);
      return -1;
    }
    ghost var v1 := p.V();
    var size := p.inodes[ino].size;
    var used := SecOf(size) + 1;
    var will := SecOf(size + |buf|) + 1;
    SecMonotone(size, size + |buf|);
    SecMonotone(size + |buf|, size + |buf|);
    assert will <= 140;
    FirstKept(v, v1, ino, got0);
    var all;
    all, ok, got := Grow(p, ino, used, will);
    if !ok {
      StuckUnharmed(v1, p.V(), ino, got);
      UnharmedTwice(v, v1, p.V(), ino);
      TakenCount(v1, p.V(), got);
      return -1;
    }
    ghost var v2 := p.V();
    GrownShape(v1, v2, ino, used, will, got);
    CopyOut(p, f, buf, all);
    FirstUsed(v, ino);
    Wrote(v, v1, v2, p.V(), ino, got0, got, used, will, buf);
    r := |buf|;
  }

  // ---------------------------------------------------------------- file_read

  function Min(a: int, b: int): int { if a < b then a else b }

  /** The addresses of blocks lo to hi, gathered the way file_read does it: directly, through the table, or both. */
  method Gather(p: Partition, ino: nat, lo: nat, hi: nat) returns (all: seq<word>)
    requires ino in p.inodes && lo <= hi < MAX_BLOCKS
    requires hi >= 12 ==> p.inodes[ino].sectors[12] != 0
    ensures Located(all, AllBlocks(p.inodes[ino], p.disk), lo, hi + 1)
  {
    hide Table, Read;
    var nd := p.inodes[ino];
    all := seq(MAX_BLOCKS, _ => 0);
    if lo == hi {
      if hi < 12 {
        all := all[hi := nd.sectors[hi]];
      } else {
        all := all[..12] + Table(Read(p.disk, nd.sectors[12]));
      }
    } else {
      var idx := lo;
      while idx < 12 && idx <= hi
        invariant lo <= idx && |all| == MAX_BLOCKS
        invariant forall k :: lo <= k < idx && k < 12 ==> all[k] == nd.sectors[k]
        invariant idx <= hi + 1
      {
        all := all[idx := nd.sectors[idx]];
        idx := idx + 1;
      }
      if hi >= 12 {
        assert nd.sectors[12] != 0;
        all := all[..12] + Table(Read(p.disk, nd.sectors[12]));
      }
    }
  }

  method CopyIn(p: Partition, f: OpenFile, size: nat, all: seq<word>) returns (out: seq<byte>)
    requires f.ino in p.inodes && f.fdPos + size <= p.inodes[f.ino].size < MAX_BLOCKS * BLOCK_SIZE
    requires Located(all, AllBlocks(p.inodes[f.ino], p.disk), SecOf(f.fdPos), SecOf(f.fdPos + size) + 1)
    modifies f
    ensures f.fdPos == old(f.fdPos) + size
    ensures out == Content(p.inodes[f.ino], p.disk)[old(f.fdPos)..old(f.fdPos) + size]
  {
    hide SecOf, OffOf, AllBlocks, Content, Read;
    var left := size;
    out := [];
    ghost var nd := p.inodes[f.ino];
    var done := 0;
    ghost var pos0 := f.fdPos;
    ghost var content := Content(nd, p.disk);
    while done < size
      invariant 0 <= left && done + left == size && f.fdPos == pos0 + done
      invariant out == content[pos0..pos0 + done]
    {
      Position(f.fdPos);
      SecMonotone(f.fdPos, pos0 + size);
      SecMonotone(pos0, f.fdPos);
      var secIdx := SecOf(f.fdPos);
      var secLba := all[secIdx];
      var off := OffOf(f.fdPos);
      var secLeft := 512 - off;
      var chunk := if left < secLeft then left else secLeft;
      var io := Read(p.disk, secLba);
      ChunkRead(nd, p.disk, f.fdPos, chunk);
      Adjacent(content, pos0, f.fdPos, f.fdPos + chunk);
      out := out + io[off..off + chunk];
      f.fdPos := f.fdPos + chunk;
      done := done + chunk;
      left := left - chunk;
    }
  }

  /** Reads the next `count` bytes, or up to the end of the file; -1 exactly when the position is at the end. */
  method FileRead(p: Partition, f: OpenFile, count: nat) returns (r: int, out: seq<byte>)
    requires f.ino in p.inodes && FileOk(p.inodes[f.ino], p.disk) && f.fdPos <= p.inodes[f.ino].size
    requires f.fdPos + count < 0x1_0000_0000
    requires SecOf(Min(f.fdPos + count, p.inodes[f.ino].size)) < 139
    modifies f
    ensures var size := p.inodes[f.ino].size; var n := Min(count, size - old(f.fdPos));
            if n == 0 && count > 0 then r == -1 && out == [] && f.fdPos == size
            else r == n && f.fdPos == old(f.fdPos) + n
                 && out == Content(p.inodes[f.ino], p.disk)[old(f.fdPos)..old(f.fdPos) + n]
  {
    hide SecOf, OffOf, AllBlocks, Shape, Content, FileOk, Read;
    var nd := p.inodes[f.ino];
    out := [];
    var size := count;
    if f.fdPos + count > nd.size {
      size := nd.size - f.fdPos;
      if size == 0 {
        return -1, [];
      }
    }
    var lo := SecOf(f.fdPos);
    var hi := SecOf(f.fdPos + size);
    SecMonotone(f.fdPos, f.fdPos + size);
    SecMonotone(f.fdPos + size, nd.size);
    assert lo < 139 && hi < 139;
    TableThere(nd, p.disk, hi);
    var all := Gather(p, f.ino, lo, hi);
    out := CopyIn(p, f, size, all);
    r := size;
  }

  lemma Adjacent(c: seq<byte>, i: nat, j: nat, k: nat)
    requires i <= j <= k <= |c|
    ensures c[i..j] + c[j..k] == c[i..k]
  {
  }

  lemma TableThere(nd: Inode, disk: map<word, Sector>, hi: nat)
    requires FileOk(nd, disk) && hi <= SecOf(nd.size)
    ensures nd.size < MAX_BLOCKS * BLOCK_SIZE
    ensures hi >= 12 ==> nd.sectors[12] != 0
  {
    hide AllBlocks, OffOf;
  }

  /** Bytes of one sector are the matching slice of the file. */
  lemma ChunkRead(nd: Inode, disk: map<word, Sector>, pos: nat, chunk: nat)
    requires pos + chunk <= nd.size < MAX_BLOCKS * BLOCK_SIZE && chunk <= 512 - OffOf(pos)
    ensures SecOf(pos) < MAX_BLOCKS
    ensures Read(disk, AllBlocks(nd, disk)[SecOf(pos)])[OffOf(pos)..OffOf(pos) + chunk] ==
      Content(nd, disk)[pos..pos + chunk]
  {
    hide AllBlocks, Read;
    var io := Read(disk, AllBlocks(nd, disk)[SecOf(pos)]);
    var content := Content(nd, disk);
    forall y | pos <= y < pos + chunk ensures content[y] == io[y - pos + OffOf(pos)] {
      Position(pos);
      Within(y, SecOf(pos));
    }
    assert io[OffOf(pos)..OffOf(pos) + chunk] == content[pos..pos + chunk];
  }

  // ---------------------------------------------------------------- inode_release

  ghost predicate Freed(v: Vol, w: Vol, given: set<word>) {
    && w.start == v.start && |w.bits| == |v.bits| && w.reserved == v.reserved
    && (forall a :: IsSet(w, a) <==> IsSet(v, a) && a !in given)
  }

  method ClearBit(p: Partition, lba: word, ghost v: Vol, ghost given: set<word>)
    requires Freed(v, p.V(), given) && InRange(p.V(), lba)
    modifies p`bits
    ensures Freed(v, p.V(), given + {lba})
  {
    ghost var u := p.V();
    p.BlockBitmapFree(lba);
    forall a ensures IsSet(p.V(), a) <==> IsSet(v, a) && a !in given + {lba} {
      assert a != lba ==> IsSet(p.V(), a) == IsSet(u, a);
    }
  }

  /** Gives back exactly the blocks the inode owns, its table among them, and forgets the inode. */
  method InodeRelease(p: Partition, ino: nat)
    requires Inv(p.V()) && ino in p.inodes
    requires forall a :: Owns(p.V(), ino, a) ==> a != p.start
    modifies p`bits, p`inodes
    ensures Inv(p.V()) && OthersKept(old(p.V()), p.V(), ino) && p.inodes == old(p.inodes) - {ino}
    ensures forall a :: IsSet(p.V(), a) <==> old(IsSet(p.V(), a)) && !old(Owns(p.V(), ino, a))
  {
    hide Inv, IsSet, Owned, Refs, AllBlocks, Table;
    ghost var v := p.V();
    var nd := p.inodes[ino];
    ghost var owned := Owned(nd, p.disk);
    OwnedInside(v, ino);
    var all := nd.sectors[..12];
    var cnt := 12;
    ghost var given: set<word> := {};
    if nd.sectors[12] != 0 {
      cnt := MAX_BLOCKS;
      all := all + Table(Read(p.disk, nd.sectors[12]));
      assert Owns(v, ino, nd.sectors[12]);
      assert nd.sectors[12] - p.start > 0;
      ClearBit(p, nd.sectors[12], v, given);
      given := {nd.sectors[12]};
    }
    AllAreRefs(nd, p.disk, all, cnt);
    var idx := 0;
    while idx < cnt
      invariant 0 <= idx <= cnt <= |all| && p.inodes == v.inodes && p.disk == v.disk
      invariant Freed(v, p.V(), given)
      invariant nd.sectors[12] != 0 ==> nd.sectors[12] in given
      invariant forall k :: 0 <= k < idx && all[k] != 0 ==> all[k] in given
      invariant given <= owned
    {
      if all[idx] != 0 {
        assert Owns(v, ino, all[idx]);
        assert all[idx] - p.start > 0;
        ClearBit(p, all[idx], v, given);
        given := given + {all[idx]};
      }
      idx := idx + 1;
    }
    forall a | a in owned ensures a in given {
      if a != nd.sectors[12] {
        var k :| 0 <= k < |all| && all[k] == a;
      }
    }
    assert given == owned;
    ghost var u := p.V();
    p.inodes := p.inodes - {ino};
    Released(v, u, p.V(), ino);
  }

  lemma OwnedInside(v: Vol, ino: nat)
    requires Inv(v) && ino in v.inodes
    ensures forall a :: Owns(v, ino, a) ==> InRange(v, a)
    ensures forall a :: a in Owned(v.inodes[ino], v.disk) ==> Owns(v, ino, a)
    ensures v.inodes[ino].sectors[12] != 0 ==> v.inodes[ino].sectors[12] in Owned(v.inodes[ino], v.disk)
    ensures Freed(v, v, {})
  {
    hide AllBlocks;
    RefsOwned(v, ino);
    assert Refs(v.inodes[ino], v.disk)[140] in Refs(v.inodes[ino], v.disk);
  }

  lemma AllAreRefs(nd: Inode, disk: map<word, Sector>, all: seq<word>, cnt: nat)
    requires all == if nd.sectors[12] == 0 then nd.sectors[..12]
      else nd.sectors[..12] + Table(Read(disk, nd.sectors[12]))
    requires cnt == |all|
    ensures forall k :: 0 <= k < cnt && all[k] != 0 ==> all[k] in Owned(nd, disk)
    ensures forall a :: a in Owned(nd, disk) ==> a != 0 && (a == nd.sectors[12] || a in all)
  {
    var r := Refs(nd, disk);
    assert forall k :: 0 <= k < cnt ==> r[k] == all[k];
    forall a | a in Owned(nd, disk) ensures a == nd.sectors[12] || a in all {
      var k :| 0 <= k < 141 && r[k] == a;
      if k < cnt { assert all[k] == a; }
    }
  }

  lemma Released(v: Vol, u: Vol, w: Vol, ino: nat)
    requires Inv(v) && ino in v.inodes && Freed(v, u, Owned(v.inodes[ino], v.disk))
    requires u.inodes == v.inodes && u.disk == v.disk && w == u.(inodes := v.inodes - {ino})
    ensures Inv(w) && OthersKept(v, w, ino)
    ensures forall a :: IsSet(w, a) <==> IsSet(v, a) && !Owns(v, ino, a)
  {
    hide Refs, Owned;
    assert forall a :: IsSet(w, a) == IsSet(u, a);
    Rebalance(v, w, ino, {}, Owned(v.inodes[ino], v.disk));
  }
}

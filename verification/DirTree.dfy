/**
 Enumerating, emptying and creating directories: dir_read, rmdir and mkdir on top of the
 insert and delete operations.
 */
module DirTree {
  import opened Common
  import opened Volume
  import opened FileData
  import opened DirCells
  import opened Directory

  // ---------------------------------------------------------------- dir_read

  /** An open directory stream: dir_pos counts bytes of live entries already returned. */
  class DirStream {
    const ino: nat
    var dirPos: nat

    constructor (ino: nat)
      ensures this.ino == ino && dirPos == 0
    {
      this.ino, dirPos := ino, 0;
    }
  }


  /** Where the next unread entry is: k cells scanned, `seen` of them live. */
  lemma LiveNext(c: seq<Slot>, k: nat, seen: nat)
    requires k < |c| && seen == LiveCount(c[..k])
    ensures LiveCount(c[..k + 1]) == seen + (if Live(c[k]) then 1 else 0)
    ensures Live(c[k]) ==> seen < LiveCount(c) && LiveSeq(c)[seen] == c[k]
  {
    LiveStep(c, k);
    if Live(c[k]) {
      assert c == c[..k] + c[k..];
      LiveSplit(c[..k], c[k..]);
      assert LiveSeq(c[k..])[0] == c[k];
    }
  }

  lemma LiveLeft(c: seq<Slot>, k: nat)
    requires k <= |c|
    ensures LiveCount(c[..k]) <= LiveCount(c)
    ensures k == |c| ==> LiveCount(c[..k]) == LiveCount(c)
  {
    assert c == c[..k] + c[k..];
    LiveSplit(c[..k], c[k..]);
    assert k == |c| ==> c[..k] == c;
  }

  lemma FreeRun(c: seq<Slot>, k: nat, m: nat)
    requires k + m <= |c| && forall i :: k <= i < k + m ==> !Live(c[i])
    ensures LiveCount(c[..k + m]) == LiveCount(c[..k])
  {
    assert c[..k + m] == c[..k] + c[k..k + m];
    LiveSplit(c[..k], c[k..k + m]);
    LiveBounds(c[k..k + m]);
  }

  /** Returns the next live entry in slot order, or Nothing at the end; the block index stays in range. */
  method DirRead(p: Partition, d: DirStream) returns (e: Maybe<Slot>)
    requires DirAt(p.V(), d.ino) && d.dirPos % 24 == 0
    modifies d
    ensures var s := LiveSeq(CellsOf(p.V(), d.ino)); var n := old(d.dirPos) / 24;
      if n < |s| then e == Just(s[n]) && d.dirPos == old(d.dirPos) + 24
      else e == Nothing && d.dirPos == old(d.dirPos)
  {
    hide Cells, SlotAt, LiveCount, LiveSeq, Read, CellsOk;
    var nd := p.inodes[d.ino];
    ghost var c := CellsOf(p.V(), d.ino);
    ghost var n := d.dirPos / 24;
    assert nd.size == 24 * LiveCount(c);
    var all: seq<word> := nd.sectors[..12] + seq(128, _ => 0);
    var b := 0;
    var cur := 0;
    FreeRun(c, 0, 0);
    assert c[..0] == [] && LiveCount([]) == 0 by { LiveBounds([]); }
    while d.dirPos < nd.size
      invariant d.dirPos == old(d.dirPos)
      invariant 0 <= b <= 12 && cur == 24 * LiveCount(c[..21 * b]) && cur <= d.dirPos
      decreases 12 - b
    {
      LiveLeft(c, 21 * b);
      assert b < 12;
      if all[b] == 0 {
        EmptyBlock(nd, p.disk, b);
        FreeRun(c, 21 * b, 21);
        b := b + 1;
        continue;
      }
      var s := Read(p.disk, all[b]);
      var j := 0;
      while j < PER_SECTOR
        invariant 0 <= j <= PER_SECTOR && d.dirPos == old(d.dirPos)
        invariant cur == 24 * LiveCount(c[..21 * b + j]) && cur <= d.dirPos
      {
        CellOf(nd, p.disk, b, j);
        LiveNext(c, 21 * b + j, LiveCount(c[..21 * b + j]));
        var slot := SlotAt(s, j);
        if slot.kind != FT_UNKNOWN {
          if cur < d.dirPos {
            cur := cur + 24;
            j := j + 1;
            continue;
          }
          assert cur == d.dirPos;
          d.dirPos := d.dirPos + 24;
          return Just(slot);
        }
        j := j + 1;
      }
      b := b + 1;
    }
    e := Nothing;
  }

  /** Reading to the end from position 0 returns each live entry once, in slot order. */
  method ReadAll(p: Partition, d: DirStream) returns (out: seq<Slot>)
    requires DirAt(p.V(), d.ino) && d.dirPos == 0
    modifies d
    ensures out == LiveSeq(CellsOf(p.V(), d.ino))
  {
    hide DirOk, LiveSeq;
    ghost var s := LiveSeq(CellsOf(p.V(), d.ino));
    out := [];
    while true
      invariant |out| <= |s| && out == s[..|out|] && d.dirPos == 24 * |out|
      decreases |s| - |out|
    {
      var e := DirRead(p, d);
      match e {
        case Nothing => return;
        case Just(slot) => out := out + [slot];
      }
    }
  }

  // ---------------------------------------------------------------- rmdir

  /** The two emptiness tests: size of two entries, and no block past the first. They agree. */
  lemma EmptyAgree(nd: Inode, disk: map<word, Sector>)
    requires DirOk(nd, disk)
    ensures nd.size == 48 <==> forall k :: 2 <= k < CELLS ==> !Live(Cells(nd, disk)[k])
    ensures nd.size == 48 ==> forall b :: 1 <= b < 13 ==> nd.sectors[b] == 0
  {
    hide Cells, DistinctNames, DistinctInodes, LiveSeq;
    var c := Cells(nd, disk);
    LiveSplit(c[..2], c[2..]);
    assert c == c[..2] + c[2..];
    assert Live(c[0]) && Live(c[1]);
    LiveBounds(c[..2]);
    assert forall k :: 0 <= k < 2 ==> Live(c[..2][k]);
    LiveBounds(c[2..]);
    assert forall k :: 2 <= k < CELLS ==> c[k] == c[2..][k - 2];
    assert forall k :: 0 <= k < CELLS - 2 ==> c[2..][k] == c[k + 2];
  }

  ghost predicate OnlyDots(v: Vol, ino: nat) {
    ino in v.inodes && forall k :: 2 <= k < CELLS ==> !Live(CellsOf(v, ino)[k])
  }

  lemma EmptyDir(v: Vol, ino: nat)
    requires DirAt(v, ino)
    ensures v.inodes[ino].size == 48 <==> OnlyDots(v, ino)
    ensures OnlyDots(v, ino) ==> forall b :: 1 <= b < 13 ==> v.inodes[ino].sectors[b] == 0
  {
    hide DirOk, Cells;
    var c := CellsOf(v, ino);
    EmptyAgree(v.inodes[ino], v.disk);
    assert v.inodes[ino].size == 48 <==> forall k :: 2 <= k < CELLS ==> !Live(c[k]);
  }

  method DirIsEmpty(p: Partition, ino: nat) returns (r: bool)
    requires DirAt(p.V(), ino)
    ensures r <==> OnlyDots(p.V(), ino)
  {
    hide DirOk, Cells;
    EmptyDir(p.V(), ino);
    r := p.inodes[ino].size == 24 * 2;
  }

  /** The child entry is gone from its parent and the child's inode and blocks are given back. */
  ghost predicate DirGone(v: Vol, w: Vol, parent: nat, child: nat, name: seq<byte>) {
    && Inv(w) && DirAt(v, parent) && DirAt(w, parent) && child !in w.inodes
    && name in Entries(CellsOf(v, parent)) && Entries(CellsOf(v, parent))[name].0 == child
    && Entries(CellsOf(w, parent)) == Entries(CellsOf(v, parent)) - {name}
    && (forall j :: j != parent && j != child && j in v.inodes ==>
          j in w.inodes && w.inodes[j] == v.inodes[j] && SameOn(v.disk, w.disk, Owned(v.inodes[j], v.disk)))
    && (forall a :: Owns(v, child, a) ==> !IsSet(w, a))
    && w.inodes.Keys == v.inodes.Keys - {child} && parent in w.inodes && w.start == v.start
    && w.inodes[parent].sectors[0] == v.inodes[parent].sectors[0]
  }

  lemma GoneTwice(v: Vol, u: Vol, w: Vol, parent: nat, child: nat, k: nat)
    requires child < 0x1_0000_0000 && parent in v.inodes && Target(CellsOf(v, parent), child, k)
    requires Inv(v) && Removed(v, u, parent, k) && parent != child && child in v.inodes && child in u.inodes
    requires Inv(w) && OthersKept(u, w, child) && w.inodes == u.inodes - {child}
    requires forall a :: IsSet(w, a) <==> IsSet(u, a) && !Owns(u, child, a)
    ensures DirGone(v, w, parent, child, CellsOf(v, parent)[k].name)
  {
    hide Cells, Entries, DirOk, LiveCount, Refs, AllBlocks, IsSet, Inv;
    DirFacts(v.inodes[parent], v.disk);
    EntryAt(CellsOf(v, parent), k);
    OthersOwn(v, u, parent);
    OthersOwn(u, w, child);
    DirFacts(u.inodes[parent], u.disk);
    DirUnmoved(u, w, parent);
  }

  /** A directory whose record and blocks stay is the same directory. */
  lemma DirUnmoved(u: Vol, w: Vol, ino: nat)
    requires DirAt(u, ino) && ino in w.inodes && w.inodes[ino] == u.inodes[ino]
    requires SameOn(u.disk, w.disk, Owned(u.inodes[ino], u.disk))
    ensures DirAt(w, ino) && CellsOf(w, ino) == CellsOf(u, ino)
  {
    hide SlotAt, LiveCount, CellsOk, AllBlocks, Refs, Read;
    var nd := u.inodes[ino];
    DirRefs(nd, u.disk);
    forall k | 0 <= k < CELLS ensures Cells(nd, w.disk)[k] == Cells(nd, u.disk)[k] {
      var b := k / 21;
      assert nd.sectors[..12][b] == nd.sectors[b];
    }
    assert Cells(nd, w.disk) == Cells(nd, u.disk);
  }

  /**
   Removes a child directory that passed the first emptiness test. The second test never objects,
   and the child's entry, inode and blocks go.
   */
  method DirRemove(p: Partition, parent: nat, child: nat) returns (ok: bool, ghost name: seq<byte>)
    requires Inv(p.V()) && DirAt(p.V(), parent) && DirAt(p.V(), child) && parent != child
    requires child < 0x1_0000_0000 && exists k :: Target(CellsOf(p.V(), parent), child, k)
    requires forall a :: Owns(p.V(), child, a) ==> a != p.start
    modifies p
    ensures old(OnlyDots(p.V(), child)) ==> ok
    ensures !ok ==> p.V() == old(p.V())
    ensures ok ==> DirGone(old(p.V()), p.V(), parent, child, name)
  {
    hide Cells, Entries, DirOk, LiveCount, Refs, AllBlocks, Owned, IsSet, Inv, DirGone, OnlyDots;
    ghost var v := p.V();
    EmptyDir(v, child);
    name := [];
    var b := 1;
    while b < 13
      invariant 1 <= b <= 13 && p.V() == v
      invariant forall i :: 1 <= i < b ==> p.inodes[child].sectors[i] == 0
    {
      if p.inodes[child].sectors[b] != 0 {
        return false, [];
      }
      b := b + 1;
    }
    ghost var k;
    ok, k := DeleteDirEntry(p, parent, child);
    ghost var u := p.V();
    name := CellsOf(v, parent)[k].name;
    OthersOwn(v, u, parent);
    InodeRelease(p, child);
    GoneTwice(v, u, p.V(), parent, child, k);
  }

  /** rmdir below path lookup: refuses a directory with entries, removes an empty one. */
  method Rmdir(p: Partition, parent: nat, child: nat) returns (ok: bool, ghost name: seq<byte>)
    requires Inv(p.V()) && DirAt(p.V(), parent) && DirAt(p.V(), child) && parent != child
    requires child < 0x1_0000_0000 && exists k :: Target(CellsOf(p.V(), parent), child, k)
    requires forall a :: Owns(p.V(), child, a) ==> a != p.start
    modifies p
    ensures ok <==> old(OnlyDots(p.V(), child))
    ensures !ok ==> p.V() == old(p.V())
    ensures ok ==> DirGone(old(p.V()), p.V(), parent, child, name)
  {
    hide DirAt, CellsOf, Inv, DirGone, Owned, OnlyDots;
    name := [];
    ok := DirIsEmpty(p, child);
    if ok {
      ok, name := DirRemove(p, parent, child);
    }
  }

  // ---------------------------------------------------------------- mkdir

  function DotEntry(ino: word): Slot { Slot(Dot(), ino, FT_DIRECTORY) }

  function DotDotEntry(ino: word): Slot { Slot(DotDot(), ino, FT_DIRECTORY) }

  /** The cells of a directory just made. */
  function NewCells(self: word, parent: word): (c: seq<Slot>)
    ensures |c| == CELLS
  {
    seq(CELLS, k => Free())[0 := DotEntry(self)][1 := DotDotEntry(parent)]
  }

  lemma NewCellsOk(self: word, parent: word)
    ensures CellsOk(NewCells(self, parent)) && LiveCount(NewCells(self, parent)) == 2
    ensures Entries(NewCells(self, parent)) == map[Dot() := (self, FT_DIRECTORY), DotDot() := (parent, FT_DIRECTORY)]
  {
    hide Entries, LiveCount, LiveSeq;
    var z: seq<Slot> := seq(CELLS, k => Free());
    LiveBounds(z);
    var c := z[0 := DotEntry(self)];
    FillCell(z, 0, DotEntry(self));
    FillCell(c, 1, DotDotEntry(parent));
    NoEntries(z);
  }

  lemma {:induction false} NoEntries(c: seq<Slot>)
    requires forall k :: 0 <= k < |c| ==> !Live(c[k])
    ensures Entries(c) == map[]
  {
    if c != [] {
      NoEntries(c[1..]);
    }
  }

  function NewInode(lba: word): Inode {
    Inode(48, seq(13, k => 0)[0 := lba])
  }

  lemma NewDirOk(disk: map<word, Sector>, lba: word, self: word, parent: word)
    requires lba != 0
    requires Read(disk, lba) == PutSlot(PutSlot(ZeroSector(), 0, DotEntry(self)), 1, DotDotEntry(parent))
    ensures DirOk(NewInode(lba), disk) && Cells(NewInode(lba), disk) == NewCells(self, parent)
  {
    hide PutSlot, SlotAt, Entries, LiveCount, CellsOk, Read;
    var nd := NewInode(lba);
    var c, z := Cells(nd, disk), NewCells(self, parent);
    forall k | 0 <= k < CELLS ensures c[k] == z[k] {
      var b, j := k / 21, k % 21;
      assert k == 21 * b + j;
      CellOf(nd, disk, b, j);
      if b == 0 {
        PutGet(ZeroSector(), 0, DotEntry(self), j);
        PutGet(PutSlot(ZeroSector(), 0, DotEntry(self)), 1, DotDotEntry(parent), j);
        ZeroSlots(j);
      }
    }
    assert c == z;
    NewCellsOk(self, parent);
  }

  lemma DirBorn(v: Vol, u: Vol, w: Vol, ino: nat, lba: word, s: Sector)
    requires Inv(v) && ino !in v.inodes && Taken(v, u, [lba]) && DiskKept(v, u, Elems([lba])) && u.inodes == v.inodes
    requires w == u.(disk := u.disk[lba := s], inodes := v.inodes[ino := NewInode(lba)])
    ensures Inv(w) && OthersKept(v, w, ino) && lba != 0 && !IsSet(v, lba) && InRange(v, lba)
    ensures forall a :: IsSet(w, a) <==> IsSet(v, a) || a == lba
    ensures forall a :: Owns(w, ino, a) <==> a == lba
    ensures FreeCount(w.bits) + 1 == FreeCount(v.bits) && FirstFit(v, w)
  {
    hide IsSet, FreeCount, Refs, Owned, AllBlocks, InRange, NoTable;
    assert [lba][0] == lba;
    FreshBlock(v, u, lba);
    BitsApart(v, u, w, [lba]);
    var nd := NewInode(lba);
    DirRefs(nd, w.disk);
    NewRefs(lba);
    assert NoRepeats(nd.sectors[..12] + (NoTable() + [0])) by { ZeroTail(lba); }
    assert Refs(nd, w.disk) == nd.sectors[..12] + (NoTable() + [0]);
    forall j | j in v.inodes && j != ino
      ensures j in w.inodes && w.inodes[j] == v.inodes[j] && SameOn(v.disk, w.disk, Owned(v.inodes[j], v.disk))
    {
      forall a | a in Owned(v.inodes[j], v.disk) ensures Read(w.disk, a) == Read(v.disk, a) {
        assert Owns(v, j, a);
      }
    }
    Rebalance(v, w, ino, {lba}, {});
  }

  lemma FreshBlock(v: Vol, u: Vol, lba: word)
    requires Inv(v) && Taken(v, u, [lba])
    ensures lba != 0 && !IsSet(v, lba) && InRange(v, lba)
    ensures forall i, a :: Owns(v, i, a) ==> a != lba
  {
    assert [lba][0] == lba;
  }

  lemma NewRefs(lba: word)
    ensures forall a :: (a != 0 && a in NewInode(lba).sectors[..12]) <==> a != 0 && a == lba
  {
    assert NewInode(lba).sectors[..12][0] == lba;
  }

  lemma ZeroTail(lba: word)
    ensures NoRepeats(NewInode(lba).sectors[..12] + (NoTable() + [0])) || lba == 0
  {
  }

  /** A new directory: its own block with "." and "..", and an entry in its parent. */
  ghost predicate DirMade(v: Vol, w: Vol, parent: nat, name: seq<byte>, child: word) {
    && Inv(w) && DirAt(v, parent) && DirAt(w, parent) && DirAt(w, child) && parent < 0x1_0000_0000
    && CellsOf(w, child) == NewCells(child, parent)
    && Entries(CellsOf(w, parent)) == Entries(CellsOf(v, parent))[name := (child, FT_DIRECTORY)]
    && (forall j :: j != parent && j in v.inodes ==>
          j in w.inodes && w.inodes[j] == v.inodes[j] && SameOn(v.disk, w.disk, Owned(v.inodes[j], v.disk)))
    && w.inodes.Keys == v.inodes.Keys + {child} && w.start == v.start && FirstFit(v, w)
    && w.inodes[parent].sectors[0] == v.inodes[parent].sectors[0]
  }

  /** Blocks a new directory takes: its own, and one for the parent when its first free cell has none. */
  ghost function MkdirNeed(nd: Inode, k: nat): nat
    requires k < CELLS
  {
    1 + if nd.sectors[k / 21] == 0 then 1 else 0
  }

  /** mkdir below path lookup. It fails exactly when blocks run out, and then gives back what it took. */
  method MkDir(p: Partition, parent: nat, name: seq<byte>, child: word) returns (ok: bool, ghost k: nat)
    requires Inv(p.V()) && DirAt(p.V(), parent) && parent < 0x1_0000_0000
    requires child !in p.inodes && FreshEntry(CellsOf(p.V(), parent), Slot(name, child, FT_DIRECTORY))
    requires LiveCount(CellsOf(p.V(), parent)) < CELLS
    modifies p
    ensures FirstFree(old(CellsOf(p.V(), parent)), k)
    ensures ok <==> old(FreeCount(p.bits)) >= MkdirNeed(old(p.inodes[parent]), k)
    ensures ok ==> DirMade(old(p.V()), p.V(), parent, name, child)
    ensures !ok ==> p.inodes == old(p.inodes) && p.bits == old(p.bits)
                    && forall j :: j in p.inodes ==> SameOn(old(p.disk), p.disk, old(Owned(p.inodes[j], p.disk)))
  {
    hide Cells, Entries, DirOk, LiveCount, Refs, AllBlocks, Owned, IsSet, InRange, FreeCount, Inv, PutSlot, SlotAt,
         Taken, DiskKept, DirMade, CellsOk, NewCells, NewInode, FirstFit;
    ghost var v := p.V();
    InvFacts(v, parent);
    var lba;
    lba, ok := TakeBlock(p, v, []);
    if !ok {
      k := SomeFree(CellsOf(v, parent));
      return;
    }
    assert [] + [lba] == [lba];
    ghost var u := p.V();
    var s := PutSlot(PutSlot(ZeroSector(), 0, DotEntry(child)), 1, DotDotEntry(parent));
    p.disk := p.disk[lba := s];
    p.inodes := p.inodes[child := NewInode(lba)];
    ghost var w := p.V();
    DirBorn(v, u, w, child, lba, s);
    NewDirOk(p.disk, lba, child, parent);
    DirUnmoved(v, w, parent);
    ok, k := SyncDirEntry(p, parent, Slot(name, child, FT_DIRECTORY));
    if ok {
      MadeTwice(v, w, p.V(), parent, name, child, k);
    } else {
      TookBack(v, w, child, lba);
      p.BlockBitmapFree(lba);
      p.inodes := p.inodes - {child};
    }
  }

  lemma MadeTwice(v: Vol, u: Vol, w: Vol, parent: nat, name: seq<byte>, child: word, k: nat)
    requires parent < 0x1_0000_0000 && child !in v.inodes && DirAt(v, parent) && OthersKept(v, u, child)
    requires DirAt(u, child) && CellsOf(u, child) == NewCells(child, parent)
    requires DirAt(u, parent) && CellsOf(u, parent) == CellsOf(v, parent)
    requires Inserted(u, w, parent, k, Slot(name, child, FT_DIRECTORY))
    requires FirstFit(v, u) && forall a :: IsSet(v, a) ==> IsSet(u, a)
    ensures DirMade(v, w, parent, name, child)
  {
    hide Cells, Entries, DirOk, LiveCount, AllBlocks, IsSet, Inv, NewCells, CellsOk, FreeCount, FirstFit;
    FirstFitTwice(v, u, w);
    DirUnmoved(u, w, child);
    forall j | j != parent && j in v.inodes
      ensures j in w.inodes && w.inodes[j] == v.inodes[j] && SameOn(v.disk, w.disk, Owned(v.inodes[j], v.disk))
    {
      SameRefs(v.inodes[j], v.disk, u.disk);
    }
  }

  lemma TookBack(v: Vol, w: Vol, child: nat, lba: word)
    requires child !in v.inodes && OthersKept(v, w, child) && child in w.inodes
    requires InRange(v, lba) && !IsSet(v, lba) && v.start + |v.bits| <= 0x1_0000_0000
    requires forall a :: IsSet(w, a) <==> IsSet(v, a) || a == lba
    ensures v.start == w.start && lba - v.start >= 0 && InRange(w, lba)
    ensures w.bits[lba - v.start := false] == v.bits && w.inodes - {child} == v.inodes
  {
    hide Owned, Refs, SameOn;
    forall i | 0 <= i < |v.bits| ensures w.bits[lba - v.start := false][i] == v.bits[i] {
      assert IsSet(w, v.start + i) <==> IsSet(v, v.start + i) || v.start + i == lba;
    }
    assert (w.inodes - {child}).Keys == v.inodes.Keys;
  }

  /** The least free cell of a directory that is not full. */
  lemma SomeFree(c: seq<Slot>) returns (k: nat)
    requires LiveCount(c) < |c|
    ensures FirstFree(c, k)
  {
    LiveBounds(c);
    k := 0;
    while Live(c[k])
      invariant k < |c| && forall i :: 0 <= i < k ==> Live(c[i])
      decreases |c| - k
    {
      k := k + 1;
    }
  }
}

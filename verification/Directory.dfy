/**
 Directories: search, insert, delete and enumeration over the block layer. A directory refines a
 finite map from names to (inode, type); its size is the entry size times the live entries.
 */
module Directory {
  import opened Volume
  import opened FileData
  import opened DirCells

  ghost function CellsOf(v: Vol, ino: nat): seq<Slot>
    requires ino in v.inodes
  {
    Cells(v.inodes[ino], v.disk)
  }

  ghost predicate DirAt(v: Vol, ino: nat) {
    ino in v.inodes && DirOk(v.inodes[ino], v.disk)
  }

  // ---------------------------------------------------------------- search_dir_entry

  /** Finds the entry with a name, or reports that there is none. */
  method SearchDirEntry(p: Partition, ino: nat, name: seq<byte>) returns (found: bool, e: Slot)
    requires DirAt(p.V(), ino) && name != []
    ensures found <==> name in Entries(CellsOf(p.V(), ino))
    ensures found ==> e.name == name && (e.ino, e.kind) == Entries(CellsOf(p.V(), ino))[name]
  {
    hide Entries, SlotAt, Cells, Read, LiveCount;
    var nd := p.inodes[ino];
    ghost var c := CellsOf(p.V(), ino);
    var all: seq<word> := nd.sectors[..12] + seq(128, _ => 0);
    var b := 0;
    found, e := false, Free();
    while b < MAX_BLOCKS
      invariant 0 <= b <= MAX_BLOCKS
      invariant forall k :: 0 <= k < 21 * b && k < CELLS ==> c[k].name != name
    {
      if all[b] != 0 {
        var s := Read(p.disk, all[b]);
        var j := 0;
        while j < PER_SECTOR
          invariant 0 <= j <= PER_SECTOR
          invariant forall k :: 0 <= k < 21 * b + j ==> c[k].name != name
        {
          CellOf(nd, p.disk, b, j);
          var d := SlotAt(s, j);
          if d.name == name {
            NamedEntry(c, 21 * b + j);
            return true, d;
          }
          j := j + 1;
        }
      } else if b < 12 {
        EmptyBlock(nd, p.disk, b);
      }
      b := b + 1;
    }
    EntriesKeys(c, name);
  }

  /** A cell with a non-empty name is live, so its name is bound to what it says. */
  lemma NamedEntry(c: seq<Slot>, k: nat)
    requires CellsOk(c) && k < CELLS && c[k].name != []
    ensures c[k].name in Entries(c) && Entries(c)[c[k].name] == (c[k].ino, c[k].kind)
  {
    assert Live(c[k]);
    EntryAt(c, k);
  }

  lemma EmptyBlock(nd: Inode, disk: map<word, Sector>, b: nat)
    requires b < 12 && nd.sectors[b] == 0
    ensures forall k :: 21 * b <= k < 21 * b + 21 ==> k < CELLS && Cells(nd, disk)[k] == Free()
  {
    forall k | 21 * b <= k < 21 * b + 21 ensures k < CELLS && Cells(nd, disk)[k] == Free() {
      CellOf(nd, disk, b, k - 21 * b);
    }
  }

  // ---------------------------------------------------------------- how cells follow sectors

  /** A directory has no table, so its references do not depend on the disk. */
  lemma DirRefs(nd: Inode, disk: map<word, Sector>)
    requires nd.sectors[12] == 0
    ensures Refs(nd, disk) == nd.sectors[..12] + NoTable() + [0]
    ensures forall a :: a in Owned(nd, disk) <==> a != 0 && a in nd.sectors[..12]
  {
    var z: seq<word> := NoTable() + [0];
    assert Refs(nd, disk) == nd.sectors[..12] + z;
    assert forall a :: a in z ==> a == 0;
  }

  lemma DirSectorsApart(nd: Inode, disk: map<word, Sector>)
    requires nd.sectors[12] == 0 && NoSharing(nd, disk)
    ensures forall i, j :: 0 <= i < j < 12 && nd.sectors[i] != 0 ==> nd.sectors[i] != nd.sectors[j]
  {
    hide AllBlocks, NoTable;
    DirRefs(nd, disk);
    forall i, j | 0 <= i < j < 12 && nd.sectors[i] != 0 ensures nd.sectors[i] != nd.sectors[j] {
      assert Refs(nd, disk)[i] == nd.sectors[i] && Refs(nd, disk)[j] == nd.sectors[j];
    }
  }

  ghost predicate Apart(nd: Inode) {
    forall i, j :: 0 <= i < 12 && 0 <= j < 12 && i != j && nd.sectors[i] != 0 ==> nd.sectors[i] != nd.sectors[j]
  }

  /** Storing an entry in a block the directory has. */
  lemma CellsPut(nd: Inode, disk: map<word, Sector>, b: nat, j: nat, e: Slot)
    requires Apart(nd) && b < 12 && j < PER_SECTOR && nd.sectors[b] != 0 && Storable(e)
    ensures 21 * b + j < CELLS
    ensures Cells(nd, disk[nd.sectors[b] := PutSlot(Read(disk, nd.sectors[b]), j, e)]) ==
      Cells(nd, disk)[21 * b + j := e]
  {
    hide PutSlot, SlotAt;
    var a := nd.sectors[b];
    var d := disk[a := PutSlot(Read(disk, a), j, e)];
    forall k | 0 <= k < CELLS ensures Cells(nd, d)[k] == Cells(nd, disk)[21 * b + j := e][k] {
      var q, r := k / 21, k % 21;
      assert k == 21 * q + r;
      CellOf(nd, d, q, r);
      CellOf(nd, disk, q, r);
      if q == b {
        PutGet(Read(disk, a), j, e, r);
      }
    }
  }

  /** Storing an entry at the start of a block just added. */
  lemma CellsNew(nd: Inode, disk: map<word, Sector>, b: nat, a: word, e: Slot)
    requires b < 12 && nd.sectors[b] == 0 && a != 0 && a !in nd.sectors && Storable(e)
    ensures Cells(nd.(sectors := nd.sectors[b := a]), disk[a := PutSlot(ZeroSector(), 0, e)]) ==
      Cells(nd, disk)[21 * b := e]
  {
    hide PutSlot, SlotAt;
    var md := nd.(sectors := nd.sectors[b := a]);
    var d := disk[a := PutSlot(ZeroSector(), 0, e)];
    forall k | 0 <= k < CELLS ensures Cells(md, d)[k] == Cells(nd, disk)[21 * b := e][k] {
      var q, r := k / 21, k % 21;
      assert k == 21 * q + r;
      CellOf(md, d, q, r);
      CellOf(nd, disk, q, r);
      if q == b {
        PutGet(ZeroSector(), 0, e, r);
        ZeroSlots(r);
      }
    }
  }

  /** Dropping a block frees its cells. */
  lemma CellsDrop(nd: Inode, disk: map<word, Sector>, b: nat, k: nat)
    requires b < 12 && 21 * b <= k < 21 * b + 21 && k < CELLS
    requires forall i :: 21 * b <= i < 21 * b + 21 && i < CELLS && i != k ==> Cells(nd, disk)[i] == Free()
    ensures Cells(nd.(sectors := nd.sectors[b := 0]), disk) == Cells(nd, disk)[k := Free()]
  {
    hide SlotAt;
    var md := nd.(sectors := nd.sectors[b := 0]);
    forall i | 0 <= i < CELLS ensures Cells(md, disk)[i] == Cells(nd, disk)[k := Free()][i] {
      var q, r := i / 21, i % 21;
      assert i == 21 * q + r;
      CellOf(md, disk, q, r);
      CellOf(nd, disk, q, r);
    }
  }

  lemma CellsResize(nd: Inode, disk: map<word, Sector>, size: nat)
    ensures Cells(nd.(size := size), disk) == Cells(nd, disk)
  {
    hide SlotAt, Read;
    var md := nd.(size := size);
    assert forall k :: 0 <= k < CELLS ==> Cells(md, disk)[k] == Cells(nd, disk)[k];
  }

  // ---------------------------------------------------------------- sync_dir_entry

  /** An entry whose name and inode the directory does not have. */
  ghost predicate FreshEntry(c: seq<Slot>, e: Slot) {
    && Live(e) && NameOk(e.name) && !Holds(c, e.name)
    && forall k :: 2 <= k < |c| && Live(c[k]) ==> c[k].ino != e.ino
  }

  ghost predicate FirstFree(c: seq<Slot>, k: nat) {
    k < |c| && !Live(c[k]) && forall i :: 0 <= i < k ==> Live(c[i])
  }

  /** The directory now has the entry in cell k and nothing else has moved. */
  ghost predicate Inserted(v: Vol, w: Vol, ino: nat, k: nat, e: Slot) {
    && DirAt(v, ino) && DirAt(w, ino) && Inv(w) && OthersKept(v, w, ino) && k < CELLS
    && CellsOf(w, ino) == CellsOf(v, ino)[k := e]
    && Entries(CellsOf(w, ino)) == Entries(CellsOf(v, ino))[e.name := (e.ino, e.kind)]
    && LiveCount(CellsOf(w, ino)) == LiveCount(CellsOf(v, ino)) + 1
    && (forall a :: IsSet(v, a) ==> IsSet(w, a)) && FirstFit(v, w)
    && FreeCount(v.bits) == FreeCount(w.bits) + (if v.inodes[ino].sectors[k / 21] == 0 then 1 else 0)
    && w.inodes[ino].sectors[0] == v.inodes[ino].sectors[0]
  }

  lemma FilledCells(c: seq<Slot>, k: nat, e: Slot)
    requires CellsOk(c) && FreshEntry(c, e) && FirstFree(c, k)
    ensures CellsOk(c[k := e]) && 2 <= k
    ensures Entries(c[k := e]) == Entries(c)[e.name := (e.ino, e.kind)]
    ensures LiveCount(c[k := e]) == LiveCount(c) + 1
  {
    hide Entries, LiveCount;
    FillCell(c, k, e);
    assert forall i :: 0 <= i < |c| && Live(c[i]) ==> c[i].name != e.name;
  }

  lemma FilledDir(nd: Inode, d: map<word, Sector>, md: Inode, f: map<word, Sector>, k: nat, e: Slot)
    requires DirOk(nd, d) && FreshEntry(Cells(nd, d), e) && FirstFree(Cells(nd, d), k)
    requires md.size == nd.size + 24 && Cells(md, f) == Cells(nd, d)[k := e]
    requires md.sectors == nd.sectors
      || (nd.sectors[k / 21] == 0 && md.sectors == nd.sectors[k / 21 := md.sectors[k / 21]])
    ensures DirOk(md, f)
    ensures Entries(Cells(md, f)) == Entries(Cells(nd, d))[e.name := (e.ino, e.kind)]
    ensures LiveCount(Cells(md, f)) == LiveCount(Cells(nd, d)) + 1
  {
    hide Cells, Entries, LiveCount;
    var c, c' := Cells(nd, d), Cells(md, f);
    FilledCells(c, k, e);
    forall b | 1 <= b < 12 && md.sectors[b] != 0 ensures BlockUsed(c', b) {
      if b == k / 21 {
        assert 21 * b <= k < 21 * b + 21 && Live(c'[k]);
      } else {
        var i :| 21 * b <= i < 21 * b + 21 && Live(c[i]);
        assert Live(c'[i]);
      }
    }
  }

  /** A write into a block the inode owns, with the references unchanged. */
  lemma OwnBlockWritten(v: Vol, w: Vol, ino: nat, a: word, s: Sector, md: Inode)
    requires Inv(v) && ino in v.inodes && v.inodes[ino].sectors[12] == 0
    requires a != 0 && a in v.inodes[ino].sectors[..12] && md.sectors == v.inodes[ino].sectors
    requires w == v.(disk := v.disk[a := s], inodes := v.inodes[ino := md])
    ensures Inv(w) && OthersKept(v, w, ino)
  {
    hide IsSet, FreeCount, Refs, Owned, AllBlocks, InRange;
    DirRefs(v.inodes[ino], v.disk);
    DirRefs(md, w.disk);
    SameBitmap(v, w);
    assert Owns(v, ino, a);
    OthersUntouched(v, w, ino, {a});
    Rebalance(v, w, ino, {}, {});
  }

  lemma BlockAdded(v: Vol, u: Vol, w: Vol, ino: nat, b: nat, a: word, s: Sector, md: Inode)
    requires Inv(v) && ino in v.inodes && v.inodes[ino].sectors[12] == 0 && b < 12 && v.inodes[ino].sectors[b] == 0
    requires Taken(v, u, [a]) && DiskKept(v, u, Elems([a])) && u.inodes == v.inodes
    requires md.sectors == v.inodes[ino].sectors[b := a]
    requires w == u.(disk := u.disk[a := s], inodes := v.inodes[ino := md])
    ensures Inv(w) && OthersKept(v, w, ino) && a != 0 && a !in v.inodes[ino].sectors
    ensures forall x :: IsSet(v, x) ==> IsSet(w, x)
    ensures FreeCount(w.bits) + 1 == FreeCount(v.bits) && FirstFit(v, w)
  {
    hide IsSet, FreeCount, Refs, Owned, AllBlocks, InRange, NoTable;
    TakenFresh(v, u, ino, [a]);
    assert a in [a];
    var nd := v.inodes[ino];
    DirRefs(nd, v.disk);
    DirRefs(md, w.disk);
    assert forall k :: 0 <= k < 12 ==> Refs(nd, v.disk)[k] == nd.sectors[k];
    BitsApart(v, u, w, [a]);
    assert Refs(md, w.disk) == Refs(nd, v.disk)[b := a];
    OthersUntouched(v, w, ino, {a});
    AddedOwner(nd.sectors, b, a);
    Rebalance(v, w, ino, {a}, {});
  }

  lemma AddedOwner(s: Sectors13, b: nat, a: word)
    requires b < 12 && s[b] == 0 && a != 0
    ensures forall x :: (x != 0 && x in s[b := a][..12]) <==> (x != 0 && x in s[..12]) || x == a
  {
    var t := s[b := a];
    forall x | x != 0 && x in s[..12] ensures x in t[..12] {
      var i :| 0 <= i < 12 && s[i] == x;
      assert t[..12][i] == x;
    }
    assert t[..12][b] == a;
  }

  /**
   Puts an entry in the first free cell, taking a block when that cell has none. It fails, changing
   nothing, exactly when a block is due and the bitmap is full.
   */
  method SyncDirEntry(p: Partition, ino: nat, e: Slot) returns (ok: bool, ghost k: nat)
    requires Inv(p.V()) && DirAt(p.V(), ino) && FreshEntry(CellsOf(p.V(), ino), e)
    requires LiveCount(CellsOf(p.V(), ino)) < CELLS
    modifies p
    ensures FirstFree(old(CellsOf(p.V(), ino)), k)
    ensures ok <==> old(p.inodes[ino].sectors[k / 21] != 0 || FreeCount(p.bits) > 0)
    ensures !ok ==> p.V() == old(p.V())
    ensures ok ==> Inserted(old(p.V()), p.V(), ino, k, e)
  {
    hide Cells, SlotAt, Entries, LiveCount, DirOk, PutSlot, Read, Inv, IsSet, FreeCount, OthersKept, Taken, DiskKept,
         CellsOk, FirstFit;
    ghost var v := p.V();
    var nd := p.inodes[ino];
    ghost var c := CellsOf(v, ino);
    var all: seq<word> := nd.sectors[..12];
    DirFacts(nd, p.disk);
    InvFacts(v, ino);
    var b := 0;
    k := 0;
    while b < 12
      invariant 0 <= b <= 12 && p.V() == v && k == 21 * b
      invariant forall i :: 0 <= i < 21 * b ==> Live(c[i])
    {
      if all[b] == 0 {
        EmptyBlock(nd, p.disk, b);
        var lba;
        lba, ok := TakeBlock(p, v, []);
        if !ok { return; }
        assert [] + [lba] == [lba];
        ghost var u := p.V();
        var md := nd.(size := nd.size + 24, sectors := nd.sectors[b := lba]);
        p.inodes := p.inodes[ino := md];
        p.disk := p.disk[lba := PutSlot(ZeroSector(), 0, e)];
        BlockAdded(v, u, p.V(), ino, b, lba, PutSlot(ZeroSector(), 0, e), md);
        SameCells(nd, v.disk, u.disk, lba);
        CellsNew(nd, u.disk, b, lba, e);
        CellsResize(nd.(sectors := nd.sectors[b := lba]), p.disk, nd.size + 24);
        FilledDir(nd, v.disk, md, p.disk, k, e);
        return;
      }
      var s := Read(p.disk, all[b]);
      var j := 0;
      while j < PER_SECTOR
        invariant 0 <= j <= PER_SECTOR && p.V() == v && k == 21 * b + j
        invariant forall i :: 0 <= i < 21 * b + j ==> Live(c[i])
      {
        CellOf(nd, p.disk, b, j);
        if SlotAt(s, j).kind == FT_UNKNOWN {
          var md := nd.(size := nd.size + 24);
          s := PutSlot(s, j, e);
          p.disk := p.disk[all[b] := s];
          p.inodes := p.inodes[ino := md];
          ok := true;
          OwnBlockWritten(v, p.V(), ino, all[b], s, md);
          CellsPut(nd, v.disk, b, j, e);
          CellsResize(nd, p.disk, nd.size + 24);
          FilledDir(nd, v.disk, md, p.disk, k, e);
          SameBitmap(v, p.V());
          SameFit(v, p.V());
          return;
        }
        j := j + 1;
        k := k + 1;
      }
      b := b + 1;
    }
    LiveBounds(c);
    assert false;
  }

  lemma SameFit(v: Vol, w: Vol)
    requires w.start == v.start && w.bits == v.bits
    ensures FirstFit(v, w)
  {
    SameBitmap(v, w);
  }

  lemma DirFacts(nd: Inode, disk: map<word, Sector>)
    requires DirOk(nd, disk)
    ensures nd.sectors[0] != 0 && nd.sectors[12] == 0 && CellsOk(Cells(nd, disk))
  {
  }

  lemma InvFacts(v: Vol, ino: nat)
    requires Inv(v) && DirAt(v, ino)
    ensures v.start + |v.bits| <= 0x1_0000_0000 && Taken(v, v, []) && DiskKept(v, v, Elems([]))
    ensures Apart(v.inodes[ino])
  {
    hide DirOk, IsSet, AllBlocks, Refs, Owned;
    DirFacts(v.inodes[ino], v.disk);
    Untouched(v);
    DirSectorsApart(v.inodes[ino], v.disk);
  }

  lemma SameCells(nd: Inode, d: map<word, Sector>, e: map<word, Sector>, a: word)
    requires a !in nd.sectors && forall x :: x != a ==> Read(e, x) == Read(d, x)
    ensures Cells(nd, e) == Cells(nd, d)
  {
    hide SlotAt, Read;
    assert forall k :: 0 <= k < CELLS ==> Cells(nd, e)[k] == Cells(nd, d)[k];
  }

  // ---------------------------------------------------------------- delete_dir_entry

  ghost predicate Target(c: seq<Slot>, child: word, k: nat) {
    2 <= k < |c| && Live(c[k]) && c[k].ino == child
  }

  /** The cell is the only live one of a block other than the first. */
  ghost predicate Lonely(c: seq<Slot>, k: nat)
    requires |c| == CELLS && k < CELLS
  {
    k / 21 >= 1 && forall i :: 21 * (k / 21) <= i < 21 * (k / 21) + 21 && i != k ==> !Live(c[i])
  }

  /** The entry in cell k is gone, with its block exactly when it was alone there. */
  ghost predicate Removed(v: Vol, w: Vol, ino: nat, k: nat) {
    && DirAt(v, ino) && DirAt(w, ino) && Inv(w) && OthersKept(v, w, ino) && k < CELLS
    && var c := CellsOf(v, ino);
    && CellsOf(w, ino) == c[k := Free()]
    && Entries(CellsOf(w, ino)) == Entries(c) - {c[k].name}
    && LiveCount(CellsOf(w, ino)) + 1 == LiveCount(c)
    && var s := v.inodes[ino].sectors;
    && w.inodes[ino].sectors == (if Lonely(c, k) then s[k / 21 := 0] else s)
    && (forall a :: IsSet(w, a) <==> IsSet(v, a) && !(Lonely(c, k) && a == s[k / 21]))
  }

  lemma ClearedCells(c: seq<Slot>, k: nat)
    requires CellsOk(c) && 2 <= k < CELLS && Live(c[k])
    ensures CellsOk(c[k := Free()])
    ensures Entries(c[k := Free()]) == Entries(c) - {c[k].name}
    ensures LiveCount(c[k := Free()]) + 1 == LiveCount(c)
  {
    hide Entries, LiveCount;
    ClearCell(c, k);
  }

  lemma ClearedDir(nd: Inode, d: map<word, Sector>, md: Inode, f: map<word, Sector>, k: nat)
    requires DirOk(nd, d) && 2 <= k < CELLS && Live(Cells(nd, d)[k])
    requires md.size + 24 == nd.size && Cells(md, f) == Cells(nd, d)[k := Free()]
    requires md.sectors == if Lonely(Cells(nd, d), k) then nd.sectors[k / 21 := 0] else nd.sectors
    ensures DirOk(md, f)
    ensures Entries(Cells(md, f)) == Entries(Cells(nd, d)) - {Cells(nd, d)[k].name}
    ensures LiveCount(Cells(md, f)) + 1 == LiveCount(Cells(nd, d))
  {
    hide Cells, Entries, LiveCount;
    var c, c' := Cells(nd, d), Cells(md, f);
    ClearedCells(c, k);
    forall b | 1 <= b < 12 && md.sectors[b] != 0 ensures BlockUsed(c', b) {
      if b == k / 21 {
        assert !Lonely(c, k);
        var i :| 21 * b <= i < 21 * b + 21 && i != k && Live(c[i]);
        assert Live(c'[i]);
      } else {
        var i :| 21 * b <= i < 21 * b + 21 && Live(c[i]);
        assert Live(c'[i]);
      }
    }
  }

  lemma BlockDropped(v: Vol, w: Vol, ino: nat, b: nat, md: Inode)
    requires Inv(v) && ino in v.inodes && v.inodes[ino].sectors[12] == 0
    requires b < 12 && v.inodes[ino].sectors[b] != 0 && Apart(v.inodes[ino])
    requires md.sectors == v.inodes[ino].sectors[b := 0]
    requires Freed(v, w, {v.inodes[ino].sectors[b]}) && w.disk == v.disk && w.inodes == v.inodes[ino := md]
    ensures Inv(w) && OthersKept(v, w, ino)
  {
    hide IsSet, FreeCount, Refs, Owned, AllBlocks, InRange, NoTable;
    var nd := v.inodes[ino];
    var a := nd.sectors[b];
    DirRefs(nd, v.disk);
    DirRefs(md, w.disk);
    assert Refs(md, w.disk) == Refs(nd, v.disk)[b := 0];
    DroppedOwner(nd, b);
    OthersUntouched(v, w, ino, {});
    Rebalance(v, w, ino, {}, {a});
  }

  lemma DroppedOwner(nd: Inode, b: nat)
    requires b < 12 && nd.sectors[b] != 0 && Apart(nd)
    ensures nd.sectors[b] in nd.sectors[..12]
    ensures forall x :: (x != 0 && x in nd.sectors[b := 0][..12]) <==>
      x != 0 && x in nd.sectors[..12] && x != nd.sectors[b]
  {
    var s, t := nd.sectors[..12], nd.sectors[b := 0][..12];
    assert s[b] == nd.sectors[b];
    assert t == s[b := 0];
    forall x | x != 0 && x in s && x != nd.sectors[b] ensures x in t {
      var i :| 0 <= i < 12 && s[i] == x;
      assert t[i] == x;
    }
  }

  lemma OneLive(s: seq<Slot>, i: nat)
    requires i < |s| && Live(s[i])
    ensures LiveCount(s) == 1 <==> forall j :: 0 <= j < |s| && j != i ==> !Live(s[j])
  {
    hide LiveSeq;
    var a, z := s[..i], s[i + 1..];
    assert LiveCount(s) == LiveCount(a) + 1 + LiveCount(z) by {
      assert s == s[..i + 1] + z;
      LiveSplit(s[..i + 1], z);
      LiveStep(s, i);
    }
    LiveBounds(a);
    LiveBounds(z);
    if LiveCount(s) == 1 {
      forall j | 0 <= j < |s| && j != i ensures !Live(s[j]) {
        if j < i { assert a[j] == s[j]; } else { assert z[j - i - 1] == s[j]; }
      }
    }
    if forall j :: 0 <= j < |s| && j != i ==> !Live(s[j]) {
      assert forall j :: 0 <= j < |z| ==> z[j] == s[i + 1 + j];
    }
  }

  lemma DirSize(nd: Inode, disk: map<word, Sector>, k: nat)
    requires DirOk(nd, disk) && k < CELLS && Live(Cells(nd, disk)[k])
    ensures nd.size >= 24
  {
    hide Cells, CellsOk;
    LiveBounds(Cells(nd, disk));
  }

  lemma LiveStep(s: seq<Slot>, j: nat)
    requires j < |s|
    ensures LiveCount(s[..j + 1]) == LiveCount(s[..j]) + if Live(s[j]) then 1 else 0
  {
    assert s[..j + 1] == s[..j] + [s[j]];
    assert [s[j]][1..] == [];
    LiveSplit(s[..j], [s[j]]);
  }

  lemma LonelyCount(c: seq<Slot>, b: nat, j: nat)
    requires |c| == CELLS && 1 <= b < 12 && j < 21 && Live(c[21 * b + j])
    ensures LiveCount(c[21 * b..21 * b + 21]) == 1 <==> Lonely(c, 21 * b + j)
  {
    var s := c[21 * b..21 * b + 21];
    var k := 21 * b + j;
    assert k / 21 == b;
    OneLive(s, j);
    assert forall i :: 21 * b <= i < 21 * b + 21 ==> c[i] == s[i - 21 * b];
    assert forall i :: 0 <= i < 21 ==> s[i] == c[21 * b + i];
  }

  /** What one pass over the entries of block b finds. */
  ghost predicate Scanned(c: seq<Slot>, child: word, b: nat, j: nat, first: bool, cnt: nat, found: int)
    requires |c| == CELLS && b < 12 && j <= 21
  {
    && (first <==> b == 0 && j > 0)
    && (b >= 1 ==> cnt == LiveCount(c[21 * b..21 * b + 21][..j]))
    && -1 <= found < j
    && (found >= 0 ==> Target(c, child, 21 * b + found) && cnt >= 1)
    && (forall i :: 21 * b <= i < 21 * b + j && Target(c, child, i) ==> i == 21 * b + found)
  }

  lemma ScanStep(c: seq<Slot>, child: word, b: nat, j: nat, first: bool, cnt: nat, found: int)
    requires |c| == CELLS && CellsOk(c) && b < 12 && j < 21 && Scanned(c, child, b, j, first, cnt, found)
    ensures var d := c[21 * b + j];
      if !Live(d) then Scanned(c, child, b, j + 1, first, cnt, found)
      else if d.name == Dot() then Scanned(c, child, b, j + 1, true, cnt, found)
      else if d.name == DotDot() then Scanned(c, child, b, j + 1, first, cnt, found)
      else Scanned(c, child, b, j + 1, first, cnt + 1, if d.ino == child then j else found)
  {
    hide LiveCount, Entries, CellsOk;
    var k := 21 * b + j;
    var s := c[21 * b..21 * b + 21];
    assert s[j] == c[k];
    LiveStep(s, j);
    DotsFirst(c, k);
    OneTarget(c, child, k);
  }

  lemma OneTarget(c: seq<Slot>, child: word, k: nat)
    requires CellsOk(c) && k < CELLS
    ensures Target(c, child, k) ==> forall i: nat :: Target(c, child, i) ==> i == k
  {
    forall i: nat | Target(c, child, i) && Target(c, child, k) ensures i == k {
    }
  }

  lemma DotsFirst(c: seq<Slot>, k: nat)
    requires CellsOk(c) && k < CELLS
    ensures Live(c[k]) && c[k].name == Dot() <==> k == 0
    ensures Live(c[k]) && c[k].name == DotDot() <==> k == 1
  {
    assert Live(c[0]) && Live(c[1]);
  }

  /**
   Removes the entry of an inode, and its block when nothing else lives there. It reports failure,
   changing nothing, exactly when no entry but "." and ".." has that inode.
   */
  method DeleteDirEntry(p: Partition, ino: nat, child: word) returns (ok: bool, ghost k: nat)
    requires Inv(p.V()) && DirAt(p.V(), ino)
    modifies p
    ensures ok <==> exists i :: Target(old(CellsOf(p.V(), ino)), child, i)
    ensures !ok ==> p.V() == old(p.V())
    ensures ok ==> Target(old(CellsOf(p.V(), ino)), child, k) && Removed(old(p.V()), p.V(), ino, k)
  {
    hide Cells, SlotAt, Entries, LiveCount, DirOk, PutSlot, Read, Inv, IsSet, FreeCount, OthersKept, Taken, DiskKept,
         Scanned, CellsOk;
    ghost var v := p.V();
    var nd := p.inodes[ino];
    ghost var c := CellsOf(v, ino);
    var all: seq<word> := nd.sectors[..12];
    DirFacts(nd, p.disk);
    InvFacts(v, ino);
    var b := 0;
    ok, k := false, 0;
    while b < 12
      invariant 0 <= b <= 12 && p.V() == v && !ok
      invariant forall i :: 0 <= i < 21 * b ==> !Target(c, child, i)
    {
      if all[b] == 0 {
        EmptyBlock(nd, p.disk, b);
        b := b + 1;
        continue;
      }
      var first, cnt, found := false, 0, -1;
      var j := 0;
      var s := Read(p.disk, all[b]);
      ScanStart(c, child, b);
      while j < PER_SECTOR
        invariant 0 <= j <= PER_SECTOR && p.V() == v && Scanned(c, child, b, j, first, cnt, found)
      {
        CellOf(nd, p.disk, b, j);
        ScanStep(c, child, b, j, first, cnt, found);
        var d := SlotAt(s, j);
        if d.kind != FT_UNKNOWN {
          if d.name == Dot() {
            first := true;
          } else if d.name != DotDot() {
            cnt := cnt + 1;
            if d.ino == child { found := j; }
          }
        }
        j := j + 1;
      }
      ScanEnd(c, child, b, first, cnt, found);
      if found == -1 {
        b := b + 1;
        continue;
      }
      assert cnt >= 1;
      ok, k := true, 21 * b + found;
      DirSize(nd, p.disk, k);
      assert nd.size >= 24;
      var md := nd.(size := nd.size - 24);
      if cnt == 1 && !first {
        FreedNone(v);
        RefInRange(v, ino, b);
        ClearBit(p, all[b], v, {});
        assert {} + {all[b]} == {all[b]};
        md := md.(sectors := md.sectors[b := 0]);
        ghost var u := p.V();
        p.inodes := p.inodes[ino := md];
        FreedApart(v, u, p.V(), {all[b]});
        BlockDropped(v, p.V(), ino, b, md);
        FreedLonely(v, p.V(), c, all[b], k);
        LonelyFree(c, k);
        CellsDrop(nd, p.disk, b, k);
        CellsResize(nd.(sectors := nd.sectors[b := 0]), p.disk, nd.size - 24);
      } else {
        s := PutSlot(s, found, Free());
        p.disk := p.disk[all[b] := s];
        p.inodes := p.inodes[ino := md];
        OwnBlockWritten(v, p.V(), ino, all[b], s, md);
        CellsPut(nd, v.disk, b, found, Free());
        CellsResize(nd, p.disk, nd.size - 24);
        SameBitmap(v, p.V());
      }
      ClearedDir(nd, v.disk, md, p.disk, k);
      return;
    }
  }

  lemma ScanStart(c: seq<Slot>, child: word, b: nat)
    requires |c| == CELLS && b < 12
    ensures Scanned(c, child, b, 0, false, 0, -1)
  {
    assert c[21 * b..21 * b + 21][..0] == [];
  }

  lemma ScanEnd(c: seq<Slot>, child: word, b: nat, first: bool, cnt: nat, found: int)
    requires CellsOk(c) && b < 12 && Scanned(c, child, b, 21, first, cnt, found)
    ensures -1 <= found < 21
    ensures found == -1 ==> forall i :: 21 * b <= i < 21 * b + 21 ==> !Target(c, child, i)
    ensures found >= 0 ==> Target(c, child, 21 * b + found) && cnt >= 1 && (21 * b + found) / 21 == b
    ensures found >= 0 ==> (cnt == 1 && !first <==> Lonely(c, 21 * b + found))
  {
    hide LiveCount;
    assert |c| == CELLS;
    if found >= 0 && b >= 1 {
      assert c[21 * b..21 * b + 21][..21] == c[21 * b..21 * b + 21];
      LonelyCount(c, b, found);
    }
  }

  lemma FreedApart(v: Vol, u: Vol, w: Vol, given: set<word>)
    requires Freed(v, u, given) && w.start == u.start && w.bits == u.bits && w.reserved == u.reserved
    ensures Freed(v, w, given)
  {
    assert forall a :: IsSet(w, a) == IsSet(u, a);
  }

  lemma FreedNone(v: Vol)
    ensures Freed(v, v, {})
  {
  }

  lemma RefInRange(v: Vol, ino: nat, b: nat)
    requires Inv(v) && DirAt(v, ino) && b < 12 && v.inodes[ino].sectors[b] != 0
    ensures InRange(v, v.inodes[ino].sectors[b])
  {
    hide DirOk, Refs, AllBlocks, Owned;
    DirFacts(v.inodes[ino], v.disk);
    DirRefs(v.inodes[ino], v.disk);
    assert v.inodes[ino].sectors[..12][b] == v.inodes[ino].sectors[b];
    assert Owns(v, ino, v.inodes[ino].sectors[b]);
  }

  lemma FreedLonely(v: Vol, w: Vol, c: seq<Slot>, a: word, k: nat)
    requires |c| == CELLS && k < CELLS && Lonely(c, k) && Freed(v, w, {a})
    ensures forall x :: IsSet(w, x) <==> IsSet(v, x) && !(Lonely(c, k) && x == a)
  {
  }

  lemma LonelyFree(c: seq<Slot>, k: nat)
    requires CellsOk(c) && k < CELLS && Lonely(c, k)
    ensures forall i :: 21 * (k / 21) <= i < 21 * (k / 21) + 21 && i < CELLS && i != k ==> c[i] == Free()
  {
  }
}

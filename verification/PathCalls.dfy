/**
 The system calls by path, on the volume: each does to the blocks and inodes what FileSystem says of the tree and the
 files.
 */
module PathCalls {
  import opened Common
  import opened Volume
  import opened FileData
  import FileSession
  import opened DirCells
  import opened Directory
  import opened DirTree
  import opened DirSession
  import opened Paths
  import opened Resolve
  import opened FileSystem

  // ---------------------------------------------------------------- a volume spells a file system

  ghost predicate FileSpelled(v: Vol, f: nat, bytes: seq<byte>) {
    f in v.inodes && FileOk(v.inodes[f], v.disk) && Content(v.inodes[f], v.disk) == bytes
  }

  ghost predicate DirSpelled(v: Vol, d: nat, m: Dict) {
    DirAt(v, d) && Entries(CellsOf(v, d)) == m
  }

  ghost predicate Numbers(v: Vol, fs: Fs) {
    && (forall i :: i in v.inodes <==> i in fs.dirs || i in fs.files)
    && (forall i :: i in v.inodes ==> i < 0x1_0000_0000)
  }

  /** The root directory has the first data block. */
  ghost predicate RootFirst(v: Vol) {
    0 in v.inodes && v.inodes[0].sectors[0] == v.start
  }

  ghost predicate Spelled(v: Vol, fs: Fs) {
    && Inv(v) && OnDisk(v, fs.dirs) && Numbers(v, fs) && RootFirst(v)
    && forall f :: f in fs.files ==> FileSpelled(v, f, fs.files[f])
  }

  ghost predicate Sound(v: Vol, fs: Fs) { FsOk(fs) && Spelled(v, fs) }

  /** The record and the blocks of an inode stay. */
  ghost predicate Kept(v: Vol, w: Vol, j: nat) {
    j in v.inodes && j in w.inodes && w.inodes[j] == v.inodes[j] && SameOn(v.disk, w.disk, Owned(v.inodes[j], v.disk))
  }

  lemma KeptDir(v: Vol, w: Vol, d: nat)
    requires Kept(v, w, d) && DirAt(v, d)
    ensures DirAt(w, d) && CellsOf(w, d) == CellsOf(v, d)
  {
    hide SameOn, Owned, Cells, DirOk;
    DirUnmoved(v, w, d);
  }

  lemma KeptSpelled(v: Vol, w: Vol, d: nat, m: Dict)
    requires Kept(v, w, d) && DirSpelled(v, d, m)
    ensures DirSpelled(w, d, m)
  {
    hide SameOn, Owned, Cells, DirOk, Entries;
    KeptDir(v, w, d);
  }

  lemma KeptFile(v: Vol, w: Vol, f: nat, bytes: seq<byte>)
    requires Kept(v, w, f) && FileSpelled(v, f, bytes)
    ensures FileSpelled(w, f, bytes)
  {
    hide SameOn, Owned, Content, FileOk;
    SameRefs(v.inodes[f], v.disk, w.disk);
    FileSession.SameBlocks(v.inodes[f], v.disk, w.disk);
  }

  lemma KeptBy(v: Vol, w: Vol, ino: nat, j: nat)
    requires OthersKept(v, w, ino) && j in v.inodes && j != ino
    ensures Kept(v, w, j)
  {
    hide SameOn, Owned;
  }

  lemma KeptTwice(v: Vol, u: Vol, w: Vol, j: nat)
    requires Kept(v, u, j) && Kept(u, w, j)
    ensures Kept(v, w, j)
  {
    hide Refs;
    SameRefs(v.inodes[j], v.disk, u.disk);
  }

  lemma SpelledDir(v: Vol, fs: Fs, d: nat)
    requires Spelled(v, fs) && d in fs.dirs
    ensures DirSpelled(v, d, fs.dirs[d]) && DirAt(v, d) && d in v.inodes && d < 0x1_0000_0000
  {
    hide Entries, CellsOf, Inv, FileSpelled;
  }

  /** What each inode of the new file system must be, given that the invariant holds. */
  lemma SpelledFrom(v: Vol, fs: Fs)
    requires Inv(v) && Numbers(v, fs) && RootFirst(v)
    requires forall d :: d in fs.dirs ==> DirSpelled(v, d, fs.dirs[d])
    requires forall f :: f in fs.files ==> FileSpelled(v, f, fs.files[f])
    ensures Spelled(v, fs)
  {
    hide Entries, CellsOf, Inv, FileSpelled, Numbers, RootFirst;
  }

  function EmptyFs(): Fs { Fs(map[0 := FreshDir(0, 0)], map[]) }

  lemma EmptyTree()
    ensures TreeOk(EmptyFs().dirs)
  {
    hide Dot, DotDot, Plain, EntryOk, Unique, OnlyDotNames;
    DotsApart();
    FreshUnique(0, 0);
    var t := EmptyFs().dirs;
    assert DotsOk(t, 0);
    forall n | n in t[0] ensures !Plain(n) { NoPlainName(t[0], n); }
    TreeFrom(t);
  }

  lemma NoPlainName(m: Dict, n: Name)
    requires OnlyDotNames(m) && n in m
    ensures !Plain(n)
  {
  }

  lemma EmptyFsOk()
    ensures FsOk(EmptyFs())
  {
    hide TreeOk, Dot, DotDot, Plain, FreshDir;
    EmptyTree();
    FreshNotRegular(0, 0);
  }

  /** A formatted volume: the root directory has the first block and binds the dots; the second block is set aside. */
  ghost predicate Formatted(v: Vol) {
    && 0 < v.start && 2 <= |v.bits| && v.start + |v.bits| <= 0x1_0000_0000
    && v.reserved == {v.start + 1} && v.inodes == map[0 := NewInode(v.start)]
    && (forall i :: 0 <= i < |v.bits| ==> v.bits[i] == (i < 2))
    && Read(v.disk, v.start) == PutSlot(PutSlot(ZeroSector(), 0, DotEntry(0)), 1, DotDotEntry(0))
  }

  lemma FormattedSound(v: Vol)
    requires Formatted(v)
    ensures Sound(v, EmptyFs())
  {
    hide FsOk, PutSlot, NewCells, Dot, DotDot, Cells, DirOk;
    EmptyFsOk();
    NewDirOk(v.disk, v.start, 0, 0);
    NewCellsOk(0, 0);
    FormattedInv(v);
    assert DirSpelled(v, 0, FreshDir(0, 0)) by { hide Inv; }
    SpelledFrom(v, EmptyFs());
  }

  lemma FormattedInv(v: Vol)
    requires Formatted(v)
    ensures Inv(v) && RootFirst(v)
  {
    hide PutSlot, FreeCount, Read, AllBlocks, NoTable;
    var nd := NewInode(v.start);
    DirRefs(nd, v.disk);
    NewRefs(v.start);
    ZeroTail(v.start);
    forall i, a ensures Owns(v, i, a) <==> i == 0 && a == v.start { }
    forall a ensures IsSet(v, a) <==> a == v.start || a == v.start + 1 { }
    assert Owns(v, 0, v.start);
  }

  // ---------------------------------------------------------------- what a path leads to

  /** search_file that finds nothing stopped at a name that its last directory does not have. */
  lemma {:induction false} ScanMissing(t: Tree, parent: nat, d: nat, ns: seq<Name>, depth: nat)
    requires TreeOk(t) && d in t && !Scan(t, parent, d, ns, depth).ok
    ensures var r := Scan(t, parent, d, ns, depth);
      depth < r.depth <= depth + |ns| && r.parent in t && ns[r.depth - depth - 1] !in t[r.parent]
    decreases |ns|
  {
    hide TreeOk;
    if ns[0] in t[d] && t[d][ns[0]].1 == FT_DIRECTORY {
      DirEntryInTree(t, d, ns[0]);
      ScanMissing(t, d, t[d][ns[0]].0, ns[1..], depth + 1);
    }
  }

  /** search_file that finds something found the last name it consumed in the directory it reports. */
  lemma {:induction false} ScanFound(t: Tree, parent: nat, d: nat, ns: seq<Name>, depth: nat)
    requires TreeOk(t) && d in t && Scan(t, parent, d, ns, depth).ok && ns != []
    ensures var r := Scan(t, parent, d, ns, depth);
      depth < r.depth <= depth + |ns| && r.parent in t && ns[r.depth - depth - 1] in t[r.parent]
    ensures var r := Scan(t, parent, d, ns, depth); var (i, kind) := t[r.parent][ns[r.depth - depth - 1]];
      i == r.ino && (kind == FT_DIRECTORY <==> r.kind == FT_DIRECTORY) && (r.kind == FT_DIRECTORY ==>
        r.depth == depth + |ns|)
    decreases |ns|
  {
    hide TreeOk;
    if t[d][ns[0]].1 == FT_DIRECTORY && |ns| > 1 {
      DirEntryInTree(t, d, ns[0]);
      ScanFound(t, d, t[d][ns[0]].0, ns[1..], depth + 1);
    }
  }

  // ---------------------------------------------------------------- the volume after each operation

  lemma RootKept(v: Vol, w: Vol)
    requires RootFirst(v) && w.start == v.start && 0 in w.inodes && w.inodes[0].sectors[0] == v.inodes[0].sectors[0]
    ensures RootFirst(w)
  {
  }

  lemma MkdirDir(v: Vol, w: Vol, fs: Fs, parent: word, n: Name, ino: word, d: nat)
    requires Spelled(v, fs) && CanBind(fs, parent, n, ino) && DirMade(v, w, parent, n, ino)
    requires d in AddDir(fs, parent, n, ino).dirs
    ensures DirSpelled(w, d, AddDir(fs, parent, n, ino).dirs[d])
  {
    hide Cells, Entries, DirOk, FsOk, Inv, SameOn, Owned, FileSpelled, NewCells, Dot, DotDot;
    SpelledDir(v, fs, parent);
    if d == ino {
      NewCellsOk(ino, parent);
    } else if d != parent {
      SpelledDir(v, fs, d);
      KeptSpelled(v, w, d, fs.dirs[d]);
    }
  }

  lemma SpelledMkdir(v: Vol, w: Vol, fs: Fs, parent: word, n: Name, ino: word)
    requires Sound(v, fs) && CanBind(fs, parent, n, ino) && DirMade(v, w, parent, n, ino)
    ensures Sound(w, AddDir(fs, parent, n, ino))
  {
    hide Cells, Entries, DirOk, FsOk, Inv, SameOn, Owned, FileSpelled, NewCells, CellsOf, DirAt, DirSpelled, OnDisk,
         Spelled;
    var gs := AddDir(fs, parent, n, ino);
    AddDirOk(fs, parent, n, ino);
    SpelledParts(v, fs);
    SpelledDir(v, fs, parent);
    FilesApart(fs, parent);
    forall d | d in gs.dirs ensures DirSpelled(w, d, gs.dirs[d]) { MkdirDir(v, w, fs, parent, n, ino, d); }
    forall f | f in gs.files ensures FileSpelled(w, f, gs.files[f]) { KeptFile(v, w, f, gs.files[f]); }
    RootKept(v, w);
    SpelledFrom(w, gs);
  }

  lemma SpelledParts(v: Vol, fs: Fs)
    requires Spelled(v, fs)
    ensures Inv(v) && Numbers(v, fs) && RootFirst(v)
    ensures forall f :: f in fs.files ==> FileSpelled(v, f, fs.files[f]) && f in v.inodes
  {
    hide Inv, Numbers, RootFirst, OnDisk;
  }

  lemma FilesApart(fs: Fs, d: nat)
    requires FsOk(fs) && d in fs.dirs
    ensures forall f :: f in fs.files ==> f != d && f !in fs.dirs
    ensures 0 in fs.dirs
  {
    hide Names, NameOk, Plain;
  }

  /** A directory without entries on disk is one that binds only the dots. */
  lemma LeafOnDisk(v: Vol, fs: Fs, d: nat)
    requires Spelled(v, fs) && d in fs.dirs
    ensures OnlyDots(v, d) <==> OnlyDotNames(fs.dirs[d])
  {
    hide Cells, Entries, Inv, FileSpelled, LiveCount, Dot, DotDot, OnDisk;
    SpelledDir(v, fs, d);
    DirFacts(v.inodes[d], v.disk);
    var c := CellsOf(v, d);
    forall k | 2 <= k < CELLS && Live(c[k]) ensures c[k].name in fs.dirs[d] && Plain(c[k].name) {
      EntryAt(c, k);
      DotsFirst(c, k);
    }
    forall n | n in fs.dirs[d] && Plain(n) ensures exists k :: 2 <= k < CELLS && Live(c[k]) {
      var k := CellOfName(c, n);
    }
  }

  lemma RmdirDir(v: Vol, w: Vol, fs: Fs, parent: nat, n: Name, ino: nat, d: nat)
    requires Spelled(v, fs) && LeafDir(fs, parent, n, ino) && DirGone(v, w, parent, ino, n)
    requires d in DropDir(fs, parent, n, ino).dirs
    ensures DirSpelled(w, d, DropDir(fs, parent, n, ino).dirs[d])
  {
    hide Cells, Entries, DirOk, FsOk, OnlyDotNames, Inv, SameOn, Owned, FileSpelled;
    SpelledDir(v, fs, d);
    if d != parent { KeptSpelled(v, w, d, fs.dirs[d]); }
  }

  /** The name that went is the one that led to the directory. */
  lemma GoneName(v: Vol, w: Vol, fs: Fs, parent: nat, n: Name, ino: nat, name: Name)
    requires Spelled(v, fs) && LeafDir(fs, parent, n, ino) && DirGone(v, w, parent, ino, name)
    ensures name == n
  {
    hide Cells, Entries, DirOk, TreeOk, Rooted, FilesOk, Inv, SameOn, Owned, FileSpelled, Dot, DotDot, NameOk, OnDisk;
    SpelledDir(v, fs, parent);
    LeafPlace(fs, parent, n, ino);
    LeafChildless(fs, parent, n, ino, parent);
    TreeAt(fs.dirs, parent);
    assert Plain(name) || name == Dot() || name == DotDot();
  }

  lemma SpelledRmdir(v: Vol, w: Vol, fs: Fs, parent: nat, n: Name, ino: nat)
    requires Sound(v, fs) && LeafDir(fs, parent, n, ino) && DirGone(v, w, parent, ino, n)
    ensures Sound(w, DropDir(fs, parent, n, ino))
  {
    hide Cells, Entries, DirOk, Inv, SameOn, Owned, FileSpelled, CellsOf, DirAt, DirSpelled, OnDisk, Spelled, TreeOk,
         Rooted, FilesOk, OnlyDotNames;
    var gs := DropDir(fs, parent, n, ino);
    DropDirOk(fs, parent, n, ino);
    LeafPlace(fs, parent, n, ino);
    SpelledParts(v, fs);
    FilesApart(fs, ino);
    FilesApart(fs, parent);
    forall d | d in gs.dirs ensures DirSpelled(w, d, gs.dirs[d]) { RmdirDir(v, w, fs, parent, n, ino, d); }
    forall f | f in gs.files ensures FileSpelled(w, f, gs.files[f]) { KeptFile(v, w, f, gs.files[f]); }
    RootKept(v, w);
    SpelledFrom(w, gs);
  }

  function EmptyFile(): Inode { Inode(0, seq(13, _ => 0)) }

  /** An inode without blocks changes nobody's blocks. */
  lemma EmptyFileOk(v: Vol, w: Vol, ino: nat)
    requires Inv(v) && ino !in v.inodes && w == v.(inodes := v.inodes[ino := EmptyFile()])
    ensures Inv(w) && OthersKept(v, w, ino) && FileSpelled(w, ino, [])
    ensures forall j :: j in v.inodes ==> Kept(v, w, j)
  {
    hide FreeCount, Owned, Refs, FileOk, Content;
    BlankRefs(v.disk);
    assert forall a :: IsSet(w, a) == IsSet(v, a);
    assert forall a :: !Owns(w, ino, a);
    Rebalance(v, w, ino, {}, {});
  }

  lemma BlankRefs(disk: map<word, Sector>)
    ensures Owned(EmptyFile(), disk) == {} && NoSharing(EmptyFile(), disk) && FileOk(EmptyFile(), disk)
    ensures Content(EmptyFile(), disk) == []
  {
    assert forall k :: 0 <= k < MAX_BLOCKS + 1 ==> Refs(EmptyFile(), disk)[k] == 0;
  }

  /** What inserting an entry means to a directory, and to the others. */
  lemma InsertedParts(v: Vol, u: Vol, fs: Fs, parent: nat, k: nat, e: Slot, d: nat)
    requires Spelled(v, fs) && Inserted(v, u, parent, k, e) && d in fs.dirs
    ensures DirSpelled(u, d, if d == parent then fs.dirs[d][e.name := (e.ino, e.kind)] else fs.dirs[d])
    ensures Inv(u) && OthersKept(v, u, parent) && parent in u.inodes && parent in v.inodes && u.start == v.start
    ensures u.inodes[parent].sectors[0] == v.inodes[parent].sectors[0]
  {
    hide Cells, Entries, DirOk, Inv, SameOn, Owned, FileSpelled, IsSet, FreeCount, LiveCount, OnDisk;
    SpelledDir(v, fs, d);
    if d != parent {
      KeptBy(v, u, parent, d);
      KeptSpelled(v, u, d, fs.dirs[d]);
    }
  }

  lemma SpelledCreate(v: Vol, u: Vol, w: Vol, fs: Fs, parent: nat, n: Name, ino: word, k: nat)
    requires Sound(v, fs) && CanBind(fs, parent, n, ino) && Inserted(v, u, parent, k, Slot(n, ino, FT_REGULAR))
    requires ino !in u.inodes && w == u.(inodes := u.inodes[ino := EmptyFile()])
    ensures Sound(w, AddFile(fs, parent, n, ino))
  {
    hide FsOk, Inv, SameOn, Owned, FileSpelled, DirSpelled, OnDisk, Spelled, IsSet, Inserted, OthersKept;
    var gs := AddFile(fs, parent, n, ino);
    AddFileOk(fs, parent, n, ino);
    SpelledParts(v, fs);
    FilesApartAll(fs);
    InsertedParts(v, u, fs, parent, k, Slot(n, ino, FT_REGULAR), parent);
    EmptyFileOk(u, w, ino);
    forall d | d in gs.dirs ensures DirSpelled(w, d, gs.dirs[d]) {
      InsertedParts(v, u, fs, parent, k, Slot(n, ino, FT_REGULAR), d);
      SpelledDir(v, fs, d);
      DirThere(u, d, gs.dirs[d]);
      KeptSpelled(u, w, d, gs.dirs[d]);
    }
    forall f | f in gs.files ensures FileSpelled(w, f, gs.files[f]) {
      if f != ino {
        KeptBy(v, u, parent, f);
        KeptFile(v, u, f, gs.files[f]);
        KeptFile(u, w, f, gs.files[f]);
      }
    }
    CreateNumbers(v, u, w, fs, gs, parent, ino);
    SpelledFrom(w, gs);
  }

  lemma DirThere(v: Vol, d: nat, m: Dict)
    requires DirSpelled(v, d, m)
    ensures d in v.inodes
  {
    hide Cells, Entries, DirOk;
  }

  lemma CreateNumbers(v: Vol, u: Vol, w: Vol, fs: Fs, gs: Fs, parent: nat, ino: nat)
    requires Numbers(v, fs) && RootFirst(v) && OthersKept(v, u, parent) && parent in u.inodes && parent in v.inodes
    requires u.inodes[parent].sectors[0] == v.inodes[parent].sectors[0] && ino !in u.inodes && ino < 0x1_0000_0000
    requires w == u.(inodes := u.inodes[ino := EmptyFile()])
    requires (forall d :: d in gs.dirs <==> d in fs.dirs) && (forall f :: f in gs.files <==> f in fs.files || f == ino)
    ensures RootFirst(w) && Numbers(w, gs)
  {
    hide SameOn, Owned;
  }

  /** The entry of a file went, and then its inode and blocks. */
  ghost predicate FileGone(v: Vol, u: Vol, w: Vol, parent: nat, k: nat, ino: nat) {
    && Removed(v, u, parent, k) && Inv(w) && OthersKept(u, w, ino) && w.inodes == u.inodes - {ino} && ino != parent
    && w.start == u.start
  }

  lemma RemovedParts(v: Vol, u: Vol, fs: Fs, parent: nat, k: nat, d: nat)
    requires Spelled(v, fs) && Removed(v, u, parent, k) && d in fs.dirs
    ensures k < CELLS && parent in v.inodes
    ensures DirSpelled(u, d, if d == parent then fs.dirs[d] - {CellsOf(v, parent)[k].name} else fs.dirs[d])
    ensures Inv(u) && OthersKept(v, u, parent) && parent in u.inodes && u.start == v.start
    ensures u.inodes[parent].sectors[0] == v.inodes[parent].sectors[0]
  {
    hide Cells, Entries, DirOk, Inv, SameOn, Owned, FileSpelled, IsSet, LiveCount, OnDisk;
    SpelledDir(v, fs, d);
    if d != parent {
      KeptBy(v, u, parent, d);
      KeptSpelled(v, u, d, fs.dirs[d]);
    }
  }

  lemma SpelledUnlink(v: Vol, u: Vol, w: Vol, fs: Fs, parent: nat, n: Name, ino: nat, k: nat)
    requires Sound(v, fs) && Names(fs.dirs, parent, n, ino, FT_REGULAR) && parent in fs.dirs
    requires FileGone(v, u, w, parent, k, ino) && CellNamed(v, parent, k, n)
    ensures Sound(w, DropFile(fs, parent, n, ino))
  {
    hide FsOk, Inv, SameOn, Owned, FileSpelled, CellsOf, DirSpelled, OnDisk, Spelled, Removed, Plain, OthersKept;
    var gs := DropFile(fs, parent, n, ino);
    DropFileOk(fs, parent, n, ino);
    SpelledParts(v, fs);
    FilesApartAll(fs);
    RemovedParts(v, u, fs, parent, k, parent);
    forall d | d in gs.dirs ensures DirSpelled(w, d, gs.dirs[d]) {
      RemovedParts(v, u, fs, parent, k, d);
      DirThere(u, d, gs.dirs[d]);
      KeptBy(u, w, ino, d);
      KeptSpelled(u, w, d, gs.dirs[d]);
    }
    forall f | f in gs.files ensures FileSpelled(w, f, gs.files[f]) {
      KeptBy(v, u, parent, f);
      KeptBy(u, w, ino, f);
      KeptFile(v, u, f, gs.files[f]);
      KeptFile(u, w, f, gs.files[f]);
    }
    UnlinkNumbers(v, u, w, fs, gs, parent, ino);
    SpelledFrom(w, gs);
  }

  ghost predicate CellNamed(v: Vol, parent: nat, k: nat, n: Name) {
    parent in v.inodes && k < CELLS && CellsOf(v, parent)[k].name == n
  }

  lemma UnlinkNumbers(v: Vol, u: Vol, w: Vol, fs: Fs, gs: Fs, parent: nat, ino: nat)
    requires Numbers(v, fs) && RootFirst(v) && OthersKept(v, u, parent) && parent in u.inodes && parent in v.inodes
    requires u.inodes[parent].sectors[0] == v.inodes[parent].sectors[0] && w.inodes == u.inodes - {ino}
    requires w.start == u.start
    requires 0 in fs.dirs && ino !in fs.dirs
    requires (forall d :: d in gs.dirs <==> d in fs.dirs) && (forall f :: f in gs.files <==> f in fs.files && f != ino)
    ensures RootFirst(w) && Numbers(w, gs)
  {
    hide SameOn, Owned;
  }

  lemma SpelledAppend(v: Vol, w: Vol, fs: Fs, ino: nat, buf: seq<byte>)
    requires Sound(v, fs) && ino in fs.files && Appended(v, w, ino, buf)
    ensures Sound(w, Append(fs, ino, buf))
  {
    hide FsOk, Inv, SameOn, Owned, DirSpelled, OnDisk, Spelled, IsSet, FreeCount, Content, FileOk, Need;
    var gs := Append(fs, ino, buf);
    AppendOk(fs, ino, buf);
    SpelledParts(v, fs);
    FilesApartAll(fs);
    forall d | d in gs.dirs ensures DirSpelled(w, d, gs.dirs[d]) {
      SpelledDir(v, fs, d);
      KeptBy(v, w, ino, d);
      KeptSpelled(v, w, d, fs.dirs[d]);
    }
    forall f | f in gs.files ensures FileSpelled(w, f, gs.files[f]) {
      if f != ino {
        KeptBy(v, w, ino, f);
        KeptFile(v, w, f, gs.files[f]);
      }
    }
    SpelledFrom(w, gs);
  }

  lemma FilesApartAll(fs: Fs)
    requires FsOk(fs)
    ensures 0 in fs.dirs && forall f :: f in fs.files ==> f !in fs.dirs
  {
    hide Names, NameOk, Plain;
  }

  /** A failed mkdir leaves the records, the bitmap and every owned block. */
  ghost predicate AllKept(v: Vol, w: Vol) {
    && w.inodes == v.inodes && w.bits == v.bits && w.start == v.start && w.reserved == v.reserved
    && forall j :: j in v.inodes ==> Kept(v, w, j)
  }

  lemma SpelledSame(v: Vol, w: Vol, fs: Fs)
    requires Sound(v, fs) && AllKept(v, w)
    ensures Sound(w, fs)
  {
    hide FsOk, DirSpelled, OnDisk, Spelled, FileSpelled, Kept, Inv;
    SpelledParts(v, fs);
    SameInv(v, w);
    forall d | d in fs.dirs ensures DirSpelled(w, d, fs.dirs[d]) {
      SpelledDir(v, fs, d);
      KeptSpelled(v, w, d, fs.dirs[d]);
    }
    forall f | f in fs.files ensures FileSpelled(w, f, fs.files[f]) { KeptFile(v, w, f, fs.files[f]); }
    SpelledFrom(w, fs);
  }

  lemma SameInv(v: Vol, w: Vol)
    requires Inv(v) && AllKept(v, w)
    ensures Inv(w)
  {
    hide SameOn, Refs, FreeCount;
    forall j | j in w.inodes ensures Refs(w.inodes[j], w.disk) == Refs(v.inodes[j], v.disk) {
      assert Kept(v, w, j);
      SameRefs(v.inodes[j], v.disk, w.disk);
    }
    SameOwners(v, w);
  }

  lemma SameOwners(v: Vol, w: Vol)
    requires Inv(v) && w.inodes == v.inodes && w.bits == v.bits && w.start == v.start && w.reserved == v.reserved
    requires forall j :: j in w.inodes ==> Refs(w.inodes[j], w.disk) == Refs(v.inodes[j], v.disk)
    ensures Inv(w)
  {
    hide Refs, FreeCount;
    assert forall i, a :: Owns(w, i, a) == Owns(v, i, a);
    assert forall a :: IsSet(w, a) == IsSet(v, a);
    forall a | IsSet(w, a) && a !in w.reserved ensures exists i :: Owns(w, i, a) {
      var i :| Owns(v, i, a);
      assert Owns(w, i, a);
    }
  }

  // ---------------------------------------------------------------- the system calls

  /** path_depth_cnt, and the last name of the path. */
  method PathNames(path: seq<byte>) returns (count: nat, last: Name)
    ensures count == |Components(path)|
    ensures last == if count == 0 then [] else Components(path)[count - 1]
  {
    hide Components;
    ghost var all := Components(path);
    ComponentsClean(path);
    count, last := 0, [];
    var name, rest, nil := PathParse(path);
    while name != []
      invariant count <= |all|
      invariant if count == |all| then name == [] else name == all[count] && Components(rest) == all[count + 1..]
      invariant last == if count == 0 then [] else all[count - 1]
      decreases |all| - count
    {
      last := name;
      count := count + 1;
      name, rest, nil := PathParse(rest);
      CleanAt(all, count);
    }
    CleanAt(all, count);
  }

  /** The least inode number below the limit that is in use nowhere. */
  predicate LeastFree(fs: Fs, limit: nat, ino: nat) {
    ino < limit && ino !in fs.dirs && ino !in fs.files && forall j :: 0 <= j < ino ==> j in fs.dirs || j in fs.files
  }

  /** inode_bitmap_alloc under the declared contract of the search: the least free number, unless all are taken. */
  method InodeAlloc(p: Partition, limit: nat, ghost fs: Fs) returns (ok: bool, ino: nat)
    requires Numbers(p.V(), fs)
    ensures ok ==> LeastFree(fs, limit, ino)
    ensures !ok ==> forall i :: 0 <= i < limit ==> i in p.inodes
  {
    ok, ino := false, 0;
    while ino < limit && ino in p.inodes
      invariant ino <= limit && forall i :: 0 <= i < ino ==> i in p.inodes
    {
      ino := ino + 1;
    }
    ok := ino < limit;
  }

  function Lookup(fs: Fs, path: seq<byte>): Found { Scan(fs.dirs, 0, 0, Components(path), 0) }

  /** Only the last name of the path is missing. */
  predicate Makeable(fs: Fs, path: seq<byte>) {
    !Lookup(fs, path).ok && Lookup(fs, path).depth == |Components(path)|
  }

  /** What the callers see to: a name that fits an entry, and a directory that is not full. */
  predicate Fitting(fs: Fs, path: seq<byte>) {
    Makeable(fs, path) && Components(path) != [] ==>
      NameOk(Components(path)[|Components(path)| - 1])
      && (Lookup(fs, path).parent in fs.dirs ==> |fs.dirs[Lookup(fs, path).parent]| < CELLS)
  }

  lemma MakeablePlace(fs: Fs, path: seq<byte>)
    requires FsOk(fs) && Makeable(fs, path)
    ensures var ns := Components(path); var d := Lookup(fs, path).parent;
      ns != [] && d in fs.dirs && ns[|ns| - 1] !in fs.dirs[d] && Plain(ns[|ns| - 1])
  {
    hide TreeOk, Rooted, FilesOk, Components;
    TreeAtRoot(fs.dirs);
    ScanMissing(fs.dirs, 0, 0, Components(path), 0);
    var ns := Components(path);
    NewNamePlain(fs.dirs, Lookup(fs, path).parent, ns[|ns| - 1]);
  }

  lemma TreeAtRoot(t: Tree)
    requires TreeOk(t)
    ensures 0 in t
  {
  }

  /** A new entry finds its directory ready for it. */
  lemma ReadyToBind(v: Vol, fs: Fs, parent: nat, n: Name, ino: word, kind: word)
    requires Sound(v, fs) && CanBind(fs, parent, n, ino) && |fs.dirs[parent]| < CELLS
    requires (kind == FT_DIRECTORY || kind == FT_REGULAR)
    ensures DirAt(v, parent) && parent in v.inodes && |CellsOf(v, parent)| == CELLS
    ensures parent < 0x1_0000_0000 && ino !in v.inodes
    ensures FreshEntry(CellsOf(v, parent), Slot(n, ino, kind)) && LiveCount(CellsOf(v, parent)) < CELLS
  {
    hide Cells, Entries, Inv, FileSpelled, LiveCount, TreeOk, Rooted, FilesOk, Plain, NameOk, OnDisk, FreshEntry;
    SpelledDir(v, fs, parent);
    DirFacts(v.inodes[parent], v.disk);
    FreshNumber(fs, parent, ino);
    assert Allowed(fs.dirs[parent], Add(Slot(n, ino, kind)));
    AllowedFresh(CellsOf(v, parent), Slot(n, ino, kind));
  }

  /** The new entry is bound where the path says. */
  ghost predicate Made(fs: Fs, gs: Fs, path: seq<byte>, ino: word, kind: word) {
    var ns, d := Components(path), Lookup(fs, path).parent;
    && ns != [] && d in fs.dirs && d < 0x1_0000_0000
    && gs == if kind == FT_DIRECTORY then AddDir(fs, d, ns[|ns| - 1], ino) else AddFile(fs, d, ns[|ns| - 1], ino)
  }

  /** Enough blocks for a new directory, or for a new entry alone, whose first free cell is k. */
  ghost predicate BlocksFor(v: Vol, parent: nat, k: nat, own: nat) {
    && parent in v.inodes && FirstFree(CellsOf(v, parent), k) && k < CELLS
    && FreeCount(v.bits) >= own + if v.inodes[parent].sectors[k / 21] == 0 then 1 else 0
  }

  lemma SoundParts(v: Vol, fs: Fs)
    requires Sound(v, fs)
    ensures Inv(v) && TreeOk(fs.dirs) && OnDisk(v, fs.dirs) && Numbers(v, fs) && RootFirst(v)
  {
    hide Inv, TreeOk, OnDisk, Numbers, RootFirst, FileSpelled;
  }

  lemma NoneFree(v: Vol, fs: Fs, limit: nat)
    requires Numbers(v, fs) && forall i :: 0 <= i < limit ==> i in v.inodes
    ensures forall ino :: !LeastFree(fs, limit, ino)
  {
  }

  lemma KeptAll(v: Vol, w: Vol)
    requires w.inodes == v.inodes && w.bits == v.bits && w.start == v.start && w.reserved == v.reserved
    requires forall j :: j in v.inodes ==> SameOn(v.disk, w.disk, Owned(v.inodes[j], v.disk))
    ensures AllKept(v, w)
  {
    hide SameOn, Owned;
  }

  lemma Bindable(fs: Fs, path: seq<byte>, limit: nat, ino: nat)
    requires FsOk(fs) && Makeable(fs, path) && Fitting(fs, path) && LeastFree(fs, limit, ino) && Components(path) != []
    ensures CanBind(fs, Lookup(fs, path).parent, Components(path)[|Components(path)| - 1], ino)
    ensures |fs.dirs[Lookup(fs, path).parent]| < CELLS
  {
    hide FsOk, NameOk, Plain, Components, Scan;
    MakeablePlace(fs, path);
  }

  /**
   sys_mkdir: it succeeds exactly when only the last name is missing, an inode is free and there are blocks; then the
   tree has one more directory, and otherwise nothing is different.
   */
  method SysMkdir(p: Partition, path: seq<byte>, limit: nat, ghost fs: Fs)
      returns (ok: bool, ghost gs: Fs, ghost k: nat)
    requires Sound(p.V(), fs) && Absolute(path) && Fitting(fs, path) && limit <= 0x1_0000_0000
    modifies p
    ensures Sound(p.V(), gs)
    ensures ok ==> exists ino: word :: LeastFree(fs, limit, ino) && Made(fs, gs, path, ino, FT_DIRECTORY)
    ensures !ok ==> gs == fs
    ensures ok <==> Makeable(fs, path) && (exists ino :: LeastFree(fs, limit, ino))
                    && BlocksFor(old(p.V()), Lookup(fs, path).parent, k, 1)
  {
    hide Components, Spelled, FsOk, NameOk, Plain, Scan, TreeOk, OnDisk, DirAt, CellsOf, Inv, FreshEntry, LiveCount,
         DirMade,
         FreeCount, AllKept, CanBind, Numbers, SameOn, Owned, LeastFree, FirstFree;
    gs, k := fs, 0;
    ghost var v := p.V();
    SoundParts(v, fs);
    var r := SearchFile(p, path, fs.dirs);
    assert r == Lookup(fs, path);
    var count, last := PathNames(path);
    if r.ok || r.depth != count { return false, gs, k; }
    MakeablePlace(fs, path);
    var found, ino := InodeAlloc(p, limit, fs);
    if !found {
      NoneFree(v, fs, limit);
      return false, gs, k;
    }
    Bindable(fs, path, limit, ino);
    FreeIsWord(fs, limit, ino);
    ReadyToBind(v, fs, r.parent, last, ino, FT_DIRECTORY);
    ok, k := MkDir(p, r.parent, last, ino);
    FirstFreeCell(CellsOf(v, r.parent), k);
    if ok {
      gs := AddDir(fs, r.parent, last, ino);
      SpelledMkdir(v, p.V(), fs, r.parent, last, ino);
    } else {
      KeptAll(v, p.V());
      SpelledSame(v, p.V(), fs);
    }
  }

  lemma FreeIsWord(fs: Fs, limit: nat, ino: nat)
    requires LeastFree(fs, limit, ino) && limit <= 0x1_0000_0000
    ensures 0 <= ino < 0x1_0000_0000
  {
  }

  lemma FirstFreeCell(c: seq<Slot>, k: nat)
    requires FirstFree(c, k) && |c| == CELLS
    ensures k < CELLS
  {
  }

  /** The entry of a file, below path lookup, and its empty inode: the part of file_create that reaches the disk. */
  method CreateEntry(p: Partition, parent: nat, n: Name, ino: word, ghost fs: Fs) returns (ok: bool, ghost k: nat)
    requires Sound(p.V(), fs) && CanBind(fs, parent, n, ino) && |fs.dirs[parent]| < CELLS
    modifies p
    ensures ok ==> Sound(p.V(), AddFile(fs, parent, n, ino))
    ensures !ok ==> p.V() == old(p.V())
    ensures ok <==> BlocksFor(old(p.V()), parent, k, 0)
  {
    hide Spelled, FsOk, NameOk, Plain, DirAt, CellsOf, Inv, FreshEntry, LiveCount, FreeCount, CanBind, SameOn, Owned,
         FirstFree, Inserted;
    ghost var v := p.V();
    SoundParts(v, fs);
    ReadyToBind(v, fs, parent, n, ino, FT_REGULAR);
    ok, k := SyncDirEntry(p, parent, Slot(n, ino, FT_REGULAR));
    FirstFreeCell(CellsOf(v, parent), k);
    if ok {
      ghost var u := p.V();
      InsertedNumbers(v, u, parent, k, Slot(n, ino, FT_REGULAR));
      p.inodes := p.inodes[ino := EmptyFile()];
      SpelledCreate(v, u, p.V(), fs, parent, n, ino, k);
    }
  }

  lemma InsertedNumbers(v: Vol, u: Vol, parent: nat, k: nat, e: Slot)
    requires Inserted(v, u, parent, k, e)
    ensures forall j :: j !in v.inodes ==> j !in u.inodes
  {
    hide Cells, Entries, DirOk, Inv, SameOn, Owned, IsSet, FreeCount, LiveCount;
  }

  /** A path that ends in a slash, as sys_open tests it first. */
  predicate Trailing(path: seq<byte>) { path != [] && path[|path| - 1] == SLASH }

  /** sys_open with the create flag on a name that is not there, as far as the new file and its entry. */
  method SysCreate(p: Partition, path: seq<byte>, limit: nat, ghost fs: Fs)
      returns (ok: bool, ghost gs: Fs, ghost k: nat)
    requires Sound(p.V(), fs) && Absolute(path) && Fitting(fs, path) && limit <= 0x1_0000_0000
    modifies p
    ensures Sound(p.V(), gs)
    ensures ok ==> exists ino: word :: LeastFree(fs, limit, ino) && Made(fs, gs, path, ino, FT_REGULAR)
    ensures !ok ==> gs == fs && p.V() == old(p.V())
    ensures ok <==> !Trailing(path) && Makeable(fs, path) && (exists ino :: LeastFree(fs, limit, ino))
                    && BlocksFor(old(p.V()), Lookup(fs, path).parent, k, 0)
  {
    hide Components, Spelled, FsOk, NameOk, Plain, Scan, TreeOk, OnDisk, CanBind, Numbers, LeastFree, BlocksFor, DirAt,
         CellsOf, Inv,
         FreeCount, SameOn, Owned, Fitting;
    ok, gs, k := false, fs, 0;
    if path[|path| - 1] == SLASH { return; }
    ghost var v := p.V();
    SoundParts(v, fs);
    var r := SearchFile(p, path, fs.dirs);
    assert r == Lookup(fs, path);
    var count, last := PathNames(path);
    if r.ok || r.depth != count { return; }
    MakeablePlace(fs, path);
    var found, ino := InodeAlloc(p, limit, fs);
    if !found {
      NoneFree(v, fs, limit);
      return;
    }
    Bindable(fs, path, limit, ino);
    FreeIsWord(fs, limit, ino);
    ParentIsWord(v, fs, r.parent);
    ok, k := CreateEntry(p, r.parent, last, ino, fs);
    if ok { gs := AddFile(fs, r.parent, last, ino); }
  }

  lemma ParentIsWord(v: Vol, fs: Fs, d: nat)
    requires Spelled(v, fs) && d in fs.dirs
    ensures 0 <= d < 0x1_0000_0000
  {
    hide DirSpelled, DirAt;
    SpelledDir(v, fs, d);
  }

  // ---------------------------------------------------------------- unlink

  /** search_file ends at a regular file, whatever follows it in the path. */
  predicate Unlinkable(fs: Fs, path: seq<byte>, open: set<nat>) {
    Lookup(fs, path).ok && Lookup(fs, path).kind == FT_REGULAR && Lookup(fs, path).ino !in open
  }

  /** The name by which the file was found. */
  ghost predicate Unlinked(fs: Fs, gs: Fs, path: seq<byte>) {
    var ns, r := Components(path), Lookup(fs, path);
    && 0 < r.depth <= |ns| && Names(fs.dirs, r.parent, ns[r.depth - 1], r.ino, FT_REGULAR)
    && gs == DropFile(fs, r.parent, ns[r.depth - 1], r.ino)
  }

  lemma FoundFile(fs: Fs, path: seq<byte>)
    requires FsOk(fs) && Lookup(fs, path).ok && Lookup(fs, path).kind == FT_REGULAR
    ensures 0 < Lookup(fs, path).depth <= |Components(path)|
    ensures var r := Lookup(fs, path);
      Names(fs.dirs, r.parent, Components(path)[r.depth - 1], r.ino, FT_REGULAR)
  {
    hide TreeOk, Rooted, FilesOk, Components, NameOk, Dot, DotDot;
    TreeAtRoot(fs.dirs);
    var ns, r := Components(path), Lookup(fs, path);
    if ns == [] { NothingFound(fs.dirs); }
    ScanFound(fs.dirs, 0, 0, ns, 0);
    EntryTarget(fs, r.parent, ns[r.depth - 1]);
  }

  lemma NothingFound(t: Tree)
    ensures Scan(t, 0, 0, [], 0).kind == FT_DIRECTORY
  {
  }

  /** A plain entry is in one cell past the dots, the only one there with its inode. */
  lemma CellTarget(c: seq<Slot>, n: Name, ino: word)
    requires CellsOk(c) && n in Entries(c) && Plain(n) && Entries(c)[n].0 == ino
    ensures exists k :: Target(c, ino, k)
    ensures forall k: nat :: Target(c, ino, k) ==> c[k].name == n
  {
    hide Entries, LiveCount, Dot, DotDot;
    var j := CellOfName(c, n);
    assert Target(c, ino, j);
    forall k: nat | Target(c, ino, k) ensures c[k].name == n { OneTarget(c, ino, k); }
  }

  lemma EntryCell(v: Vol, fs: Fs, parent: nat, n: Name, ino: word, kind: word)
    requires Spelled(v, fs) && Names(fs.dirs, parent, n, ino, kind)
    ensures DirAt(v, parent) && parent in v.inodes && exists k :: Target(CellsOf(v, parent), ino, k)
    ensures forall k: nat :: Target(CellsOf(v, parent), ino, k) ==> CellsOf(v, parent)[k].name == n
  {
    hide Cells, Entries, Inv, FileSpelled, LiveCount, OnDisk, CellsOk, Plain, Target, Numbers, RootFirst;
    SpelledDir(v, fs, parent);
    DirFacts(v.inodes[parent], v.disk);
    CellTarget(CellsOf(v, parent), n, ino);
  }

  /** Only the root owns the first data block. */
  lemma FirstIsRoots(v: Vol, ino: nat)
    requires Inv(v) && RootFirst(v) && ino != 0
    ensures forall a :: Owns(v, ino, a) ==> a != v.start
  {
    hide IsSet, FreeCount, InRange, Table;
    assert Refs(v.inodes[0], v.disk)[0] == v.start;
    assert Owns(v, 0, v.start);
  }

  lemma RootStays(v: Vol, u: Vol, parent: nat)
    requires RootFirst(v) && OthersKept(v, u, parent) && parent in u.inodes && parent in v.inodes
    requires u.inodes[parent].sectors[0] == v.inodes[parent].sectors[0]
    ensures RootFirst(u)
  {
    hide SameOn, Owned;
  }

  /** sys_unlink; `open` are the inodes in the global file table. */
  method SysUnlink(p: Partition, path: seq<byte>, open: set<nat>, ghost fs: Fs) returns (ok: bool, ghost gs: Fs)
    requires Sound(p.V(), fs) && Absolute(path)
    modifies p
    ensures ok <==> Unlinkable(fs, path, open)
    ensures Sound(p.V(), gs) && if ok then Unlinked(fs, gs, path) else gs == fs && p.V() == old(p.V())
  {
    hide Components, Spelled, FsOk, Scan, TreeOk, OnDisk, Numbers, DirAt, CellsOf, Inv, Owned, OthersKept, Removed,
         Names, RootFirst,
         Target, IsSet;
    ok, gs := false, fs;
    ghost var v := p.V();
    SoundParts(v, fs);
    var r := SearchFile(p, path, fs.dirs);
    assert r == Lookup(fs, path);
    if !r.ok || r.kind == FT_DIRECTORY || r.ino in open {
      FoundKinds(fs, path);
      return;
    }
    FoundKinds(fs, path);
    FoundFile(fs, path);
    ghost var n := Components(path)[r.depth - 1];
    FileFacts(v, fs, r.parent, n, r.ino);
    EntryCell(v, fs, r.parent, n, r.ino, FT_REGULAR);
    ghost var k;
    ok, k := DeleteDirEntry(p, r.parent, r.ino);
    ghost var u := p.V();
    RemovedParts(v, u, fs, r.parent, k, r.parent);
    RootStays(v, u, r.parent);
    FirstIsRoots(u, r.ino);
    StillThere(v, u, r.parent, r.ino);
    InodeRelease(p, r.ino);
    gs := DropFile(fs, r.parent, n, r.ino);
    SpelledUnlink(v, u, p.V(), fs, r.parent, n, r.ino, k);
  }

  lemma FoundKinds(fs: Fs, path: seq<byte>)
    requires FsOk(fs)
    ensures var r := Lookup(fs, path); r.ok ==> r.kind == FT_DIRECTORY || r.kind == FT_REGULAR
  {
    hide TreeOk, Rooted, FilesOk, Components;
    ScanKinds(fs.dirs, 0, 0, Components(path), 0);
  }

  lemma {:induction false} ScanKinds(t: Tree, parent: nat, d: nat, ns: seq<Name>, depth: nat)
    ensures var r := Scan(t, parent, d, ns, depth); r.ok ==> r.kind == FT_DIRECTORY || r.kind == FT_REGULAR
    decreases |ns|
  {
    if ns != [] && d in t && ns[0] in t[d] && t[d][ns[0]].1 == FT_DIRECTORY {
      ScanKinds(t, d, t[d][ns[0]].0, ns[1..], depth + 1);
    }
  }

  lemma FileFacts(v: Vol, fs: Fs, parent: nat, n: Name, ino: nat)
    requires Sound(v, fs) && Names(fs.dirs, parent, n, ino, FT_REGULAR)
    ensures ino in fs.files && ino !in fs.dirs && parent in fs.dirs && ino != parent && ino != 0
    ensures ino in v.inodes && ino < 0x1_0000_0000
  {
    hide TreeOk, Rooted, Plain, Inv, OnDisk, RootFirst, FileSpelled;
    TreeAtRoot(fs.dirs);
  }

  lemma StillThere(v: Vol, u: Vol, parent: nat, ino: nat)
    requires OthersKept(v, u, parent) && ino != parent && ino in v.inodes
    ensures ino in u.inodes
  {
    hide SameOn, Owned;
  }

  // ---------------------------------------------------------------- rmdir

  /** Halted is a failed assertion of the kernel. */
  datatype RmResult = Declined | Gone | Halted

  /** The path leads to a directory that binds only the dots. */
  ghost predicate LeadsToLeaf(fs: Fs, path: seq<byte>) {
    && Lookup(fs, path).ok && Lookup(fs, path).kind == FT_DIRECTORY && Lookup(fs, path).ino in fs.dirs
    && OnlyDotNames(fs.dirs[Lookup(fs, path).ino])
  }

  predicate EndsPlain(path: seq<byte>) {
    Components(path) != [] && Plain(Components(path)[|Components(path)| - 1])
  }

  lemma FoundDir(fs: Fs, path: seq<byte>)
    requires FsOk(fs) && Lookup(fs, path).ok && Lookup(fs, path).kind == FT_DIRECTORY
    ensures var r := Lookup(fs, path);
      r.ino in fs.dirs && r.parent in fs.dirs && Walk(fs.dirs, 0, Components(path)) == Just(r.ino)
    ensures var ns, r := Components(path), Lookup(fs, path);
      if ns == [] then r.ino == 0 && r.parent == 0
        else ns[|ns| - 1] in fs.dirs[r.parent] && fs.dirs[r.parent][ns[|ns| - 1]] == (r.ino, FT_DIRECTORY)
  {
    hide TreeOk, Rooted, FilesOk, Components;
    TreeAtRoot(fs.dirs);
    var ns, r := Components(path), Lookup(fs, path);
    ScanAgrees(fs.dirs, 0, 0, ns, 0);
    if ns != [] {
      ScanFound(fs.dirs, 0, 0, ns, 0);
      EntryTarget(fs, r.parent, ns[r.depth - 1]);
    }
  }

  /** A last name leads from its directory to the leaf; a dot at the end leads to the leaf from itself. */
  lemma LeafParent(fs: Fs, path: seq<byte>)
    requires FsOk(fs) && LeadsToLeaf(fs, path)
    ensures var ns, r := Components(path), Lookup(fs, path);
      if EndsPlain(path) then LeafDir(fs, r.parent, ns[|ns| - 1], r.ino) else r.parent == r.ino
    ensures EndsPlain(path) <==> Components(path) != [] && Lookup(fs, path).parent != Lookup(fs, path).ino
  {
    hide TreeOk, FilesOk, Components, Scan, Dot, DotDot, Walk, OnlyDotNames, Names;
    var ns, r := Components(path), Lookup(fs, path);
    FoundDir(fs, path);
    if EndsPlain(path) {
      NamedLeaf(fs, r.parent, ns[|ns| - 1], r.ino);
      LeafPlace(fs, r.parent, ns[|ns| - 1], r.ino);
    } else if ns != [] {
      TreeAt(fs.dirs, r.parent);
      if ns[|ns| - 1] == DotDot() && r.parent != 0 {
        assert HasEntry(fs.dirs, r.parent);
        LeafNoEntry(fs, r.ino, r.parent);
      } else if ns[|ns| - 1] == DotDot() {
        TreeAt(fs.dirs, 0);
      }
    }
  }

  lemma NamedLeaf(fs: Fs, d: nat, n: Name, ino: nat)
    requires FsOk(fs) && d in fs.dirs && n in fs.dirs[d] && Plain(n) && fs.dirs[d][n] == (ino, FT_DIRECTORY)
    requires ino in fs.dirs && OnlyDotNames(fs.dirs[ino])
    ensures LeafDir(fs, d, n, ino)
  {
    hide FsOk, OnlyDotNames, Plain;
  }

  lemma LeafNoEntry(fs: Fs, ino: nat, d: nat)
    requires ino in fs.dirs && OnlyDotNames(fs.dirs[ino]) && d in fs.dirs && HasEntry(fs.dirs, d)
    ensures DotDot() in fs.dirs[d] && fs.dirs[d][DotDot()].0 != ino
  {
    hide Dot, DotDot, Plain;
    var n :| Names(fs.dirs, fs.dirs[d][DotDot()].0, n, d, FT_DIRECTORY);
  }

  /** The inode of a directory went and nothing else: its entry in the parent stayed. */
  ghost predicate Lost(v: Vol, w: Vol, d: nat) {
    OthersKept(v, w, d) && d in v.inodes && w.inodes == v.inodes - {d} && Inv(w)
  }

  /** dir_remove of a directory from itself: there is no entry to delete, and the inode goes all the same. */
  method RemoveSelf(p: Partition, d: nat) returns (r: RmResult)
    requires Inv(p.V()) && RootFirst(p.V()) && DirAt(p.V(), d) && OnlyDots(p.V(), d) && d < 0x1_0000_0000
    modifies p
    ensures if d == 0 then r == Halted && p.V() == old(p.V()) else r == Gone && Lost(old(p.V()), p.V(), d)
  {
    hide Cells, Entries, DirOk, LiveCount, Refs, AllBlocks, Owned, IsSet, Inv, RootFirst, SameOn;
    ghost var v := p.V();
    ghost var k;
    var ok;
    NoTarget(CellsOf(v, d), d);
    ok, k := DeleteDirEntry(p, d, d);
    assert p.V() == v;
    if d == 0 { return Halted; }
    FirstIsRoots(v, d);
    InodeRelease(p, d);
    r := Gone;
  }

  lemma NoTarget(c: seq<Slot>, ino: word)
    requires |c| == CELLS && forall k :: 2 <= k < CELLS ==> !Live(c[k])
    ensures !exists k :: Target(c, ino, k)
  {
  }

  /**
   sys_rmdir. It refuses unless the path leads to a directory of only the dots. A path that ends in a plain name takes
   that directory out of the tree. A path that ends in a dot, or in nothing, takes its inode and leaves its entry, and
   then the volume spells no file system at all; on the root an assertion stops the kernel.
   */
  method SysRmdir(p: Partition, path: seq<byte>, ghost fs: Fs) returns (r: RmResult, ghost gs: Fs)
    requires Sound(p.V(), fs) && Absolute(path)
    modifies p
    ensures r.Declined? <==> !LeadsToLeaf(fs, path)
    ensures !r.Gone? ==> gs == fs && p.V() == old(p.V())
    ensures r.Halted? <==> LeadsToLeaf(fs, path) && !EndsPlain(path) && Lookup(fs, path).ino == 0
    ensures r.Gone? && EndsPlain(path) ==>
      var ns, s := Components(path), Lookup(fs, path);
      s.parent in fs.dirs && gs == DropDir(fs, s.parent, ns[|ns| - 1], s.ino) && Sound(p.V(), gs)
    ensures r.Gone? && !EndsPlain(path) ==>
      Lost(old(p.V()), p.V(), Lookup(fs, path).ino) && forall hs :: !Sound(p.V(), hs)
  {
    hide Components, Spelled, FsOk, Scan, TreeOk, OnDisk, Numbers, DirAt, CellsOf, Inv, Owned, RootFirst, Target,
         IsSet, OnlyDotNames,
         OnlyDots, DirGone, Lost, EndsPlain, Plain, LeafDir, Walk;
    gs := fs;
    ghost var v := p.V();
    SoundParts(v, fs);
    var s := SearchFile(p, path, fs.dirs);
    assert s == Lookup(fs, path);
    FoundKinds(fs, path);
    if !s.ok || s.kind == FT_REGULAR { return Declined, gs; }
    FoundDir(fs, path);
    SpelledDir(v, fs, s.ino);
    SpelledDir(v, fs, s.parent);
    LeafOnDisk(v, fs, s.ino);
    var empty := DirIsEmpty(p, s.ino);
    if !empty { return Declined, gs; }
    LeafParent(fs, path);
    ghost var ns := Components(path);
    if s.parent == s.ino {
      r := RemoveSelf(p, s.ino);
      if s.ino != 0 { NoFileSystem(v, p.V(), fs, path); }
    } else {
      ghost var n := ns[|ns| - 1];
      LeafReady(v, fs, s.parent, n, s.ino);
      var ok;
      ghost var name;
      ok, name := DirRemove(p, s.parent, s.ino);
      GoneName(v, p.V(), fs, s.parent, n, s.ino, name);
      SpelledRmdir(v, p.V(), fs, s.parent, n, s.ino);
      gs := DropDir(fs, s.parent, n, s.ino);
      r := Gone;
    }
  }

  lemma LeafReady(v: Vol, fs: Fs, parent: nat, n: Name, ino: nat)
    requires Sound(v, fs) && LeafDir(fs, parent, n, ino)
    ensures parent in v.inodes && ino < 0x1_0000_0000 && exists k :: Target(CellsOf(v, parent), ino, k)
    ensures forall a :: Owns(v, ino, a) ==> a != v.start
  {
    hide TreeOk, Rooted, FilesOk, Inv, OnDisk, RootFirst, FileSpelled, OnlyDotNames, Target, CellsOf, Owned, Plain;
    LeafPlace(fs, parent, n, ino);
    ParentIsWord(v, fs, ino);
    EntryCell(v, fs, parent, n, ino, FT_DIRECTORY);
    FirstIsRoots(v, ino);
  }

  // ---------------------------------------------------------------- what is left after a lost directory

  /** Every directory on the way to the lost one is a directory of any file system the volume could spell. */
  lemma {:induction false} PrefixThere(v: Vol, w: Vol, fs: Fs, hs: Fs, ns: seq<Name>, d: nat, i: nat) returns (x: nat)
    requires Sound(v, fs) && Sound(w, hs) && Lost(v, w, d) && PathTo(fs.dirs, ns, d) && i < |ns|
    ensures PathTo(fs.dirs, ns[..i], x) && x in hs.dirs && x != d
    decreases i
  {
    hide TreeOk, Rooted, FilesOk, Spelled, Walk, Lost;
    if i == 0 {
      x := 0;
      TreeAtRoot(fs.dirs);
      TreeAtRoot(hs.dirs);
      WalkStart(fs.dirs);
      assert ns[..0] == [];
    } else {
      var y := PrefixThere(v, w, fs, hs, ns, d, i - 1);
      x := PrefixStep(fs.dirs, ns, d, i);
      assert ns[..i][..i - 1] == ns[..i - 1];
      SameDirectory(v, w, fs, hs, d, y);
      NamedThere(hs, y, ns[i - 1], x);
    }
    NotTheEnd(fs.dirs, ns, d, i, x);
  }

  lemma NotTheEnd(t: Tree, ns: seq<Name>, d: nat, i: nat, x: nat)
    requires TreeOk(t) && PathTo(t, ns, d) && i < |ns| && PathTo(t, ns[..i], x)
    ensures x != d
  {
    hide TreeOk, Walk;
    if x == d { PathUnique(t, ns[..i], ns, d); }
  }

  lemma {:induction false} PrefixStep(t: Tree, ns: seq<Name>, d: nat, i: nat) returns (x: nat)
    requires TreeOk(t) && PathTo(t, ns, d) && 0 < i <= |ns|
    ensures PathTo(t, ns[..i], x)
    ensures var w := Walk(t, 0, ns[..i - 1]);
      w.Just? && w.value in t && ns[i - 1] in t[w.value] && t[w.value][ns[i - 1]] == (x, FT_DIRECTORY)
    ensures Plain(ns[i - 1])
    decreases |ns|
  {
    hide TreeOk, Walk;
    var e := PathParent(t, ns, d);
    if i == |ns| {
      assert ns[..i] == ns;
      x := d;
    } else {
      x := PrefixStep(t, ns[..|ns| - 1], e, i);
      assert ns[..|ns| - 1][..i] == ns[..i] && ns[..|ns| - 1][..i - 1] == ns[..i - 1];
    }
  }

  lemma SameDirectory(v: Vol, w: Vol, fs: Fs, hs: Fs, d: nat, y: nat)
    requires Spelled(v, fs) && Spelled(w, hs) && Lost(v, w, d) && y in fs.dirs && y in hs.dirs && y != d
    ensures hs.dirs[y] == fs.dirs[y]
  {
    hide Cells, Entries, Inv, FileSpelled, OnDisk, DirOk, SameOn, Owned, Numbers, RootFirst;
    SpelledDir(v, fs, y);
    SpelledDir(w, hs, y);
    KeptBy(v, w, d, y);
    KeptDir(v, w, y);
  }

  lemma NamedThere(hs: Fs, y: nat, n: Name, x: nat)
    requires FsOk(hs) && y in hs.dirs && n in hs.dirs[y] && hs.dirs[y][n] == (x, FT_DIRECTORY)
    ensures x in hs.dirs
  {
    hide TreeOk, Rooted, FilesOk;
    EntryTarget(hs, y, n);
  }

  /** The entry that stayed names an inode that is gone, so there is no file system that the volume spells. */
  lemma NoFileSystem(v: Vol, w: Vol, fs: Fs, path: seq<byte>)
    requires Sound(v, fs) && LeadsToLeaf(fs, path) && Lookup(fs, path).ino != 0 && Lost(v, w, Lookup(fs, path).ino)
    ensures forall hs :: !Sound(w, hs)
  {
    hide FsOk, Spelled, Scan, Components, Walk, Lost, OnlyDotNames;
    var d := Lookup(fs, path).ino;
    FoundDir(fs, path);
    var ns := Normalize(Components(path));
    PlainPath(fs, Components(path), d);
    forall hs ensures !Sound(w, hs) {
      if Sound(w, hs) {
        LostInode(v, w, hs, d);
        LastNamed(v, w, fs, hs, ns, d);
      }
    }
  }

  lemma PlainPath(fs: Fs, typed: seq<Name>, d: nat)
    requires FsOk(fs) && Walk(fs.dirs, 0, typed) == Just(d) && d in fs.dirs && d != 0
    ensures PathTo(fs.dirs, Normalize(typed), d) && Normalize(typed) != []
  {
    hide TreeOk, Rooted, FilesOk, Walk, Normalize;
    NormalizeKeepsMeaning(fs.dirs, typed);
    NormalPath(fs.dirs, Normalize(typed), d, typed);
    RootPath(fs.dirs, Normalize(typed), d);
  }

  lemma LastNamed(v: Vol, w: Vol, fs: Fs, hs: Fs, ns: seq<Name>, d: nat)
    requires Sound(v, fs) && Sound(w, hs) && Lost(v, w, d) && PathTo(fs.dirs, ns, d) && ns != []
    ensures d in hs.dirs
  {
    hide TreeOk, Rooted, FilesOk, Spelled, Walk, Lost;
    var y := PrefixThere(v, w, fs, hs, ns, d, |ns| - 1);
    var x := PrefixStep(fs.dirs, ns, d, |ns|);
    assert ns[..|ns|] == ns;
    SameDirectory(v, w, fs, hs, d, y);
    NamedThere(hs, y, ns[|ns| - 1], x);
  }

  lemma LostInode(v: Vol, w: Vol, hs: Fs, d: nat)
    requires Spelled(w, hs) && Lost(v, w, d)
    ensures d !in hs.dirs
  {
    hide Inv, OnDisk, FileSpelled, OthersKept, RootFirst;
  }

  // ---------------------------------------------------------------- writing, and whole runs

  /** file_write on a file of the tree. */
  method WriteTo(p: Partition, f: OpenFile, buf: seq<byte>, ghost fs: Fs) returns (r: int)
    requires Sound(p.V(), fs) && f.ino in fs.files
    requires |fs.files[f.ino]| + |buf| < 0x1_0000_0000 && |fs.files[f.ino]| + |buf| != MAX_BLOCKS * BLOCK_SIZE
    modifies p, f
    ensures r != -1 ==> r == |buf| && Sound(p.V(), Append(fs, f.ino, buf))
    ensures |fs.files[f.ino]| + |buf| > MAX_BLOCKS * BLOCK_SIZE ==> r == -1 && p.V() == old(p.V())
    ensures r == -1 && |fs.files[f.ino]| + |buf| < MAX_BLOCKS * BLOCK_SIZE ==> OutOfBlocks(old(p.V()), f.ino, |buf|)
  {
    hide FsOk, OnDisk, Numbers, RootFirst, Inv, Content, FileOk, Appended, Unharmed, Recovers, FreeCount, Need;
    ghost var v := p.V();
    SoundParts(v, fs);
    WritePrepared(v, fs, f.ino);
    r := FileWrite(p, f, buf);
    if r != -1 { SpelledAppend(v, p.V(), fs, f.ino, buf); }
  }

  ghost predicate OutOfBlocks(v: Vol, ino: nat, count: nat) {
    ino in v.inodes && FreeCount(v.bits) < Need(v.inodes[ino], count)
  }

  lemma WritePrepared(v: Vol, fs: Fs, ino: nat)
    requires Spelled(v, fs) && ino in fs.files
    ensures ino in v.inodes && FileOk(v.inodes[ino], v.disk) && v.inodes[ino].size == |fs.files[ino]|
  {
    hide Inv, OnDisk, Numbers, RootFirst, FileOk;
    assert FileSpelled(v, ino, fs.files[ino]);
  }

  lemma SizeSpelled(v: Vol, fs: Fs, ino: nat)
    requires Sound(v, fs) && ino in fs.files
    ensures ino in v.inodes && v.inodes[ino].size == |fs.files[ino]|
  {
    hide FsOk, Spelled;
    WritePrepared(v, fs, ino);
  }

  /** `open` are the inodes in the global file table at the time of an unlink. */
  datatype Call =
    | Mkdir(path: seq<byte>)
    | Rmdir(path: seq<byte>)
    | Create(path: seq<byte>)
    | Unlink(path: seq<byte>, open: set<nat>)
    | WriteFile(ino: nat, buf: seq<byte>)

  /** What one call does to the file system, done or refused. */
  ghost predicate Does(fs: Fs, c: Call, limit: nat, done: bool, gs: Fs) {
    match c
    case Mkdir(path) => MadeOrNot(fs, path, limit, done, gs, FT_DIRECTORY)
    case Create(path) => MadeOrNot(fs, path, limit, done, gs, FT_REGULAR)
    case Rmdir(path) => (done <==> LeadsToLeaf(fs, path)) && if done then Unmade(fs, gs, path) else gs == fs
    case Unlink(path, open) => (done <==>
      Unlinkable(fs, path, open)) && if done then Unlinked(fs, gs, path) else gs == fs
    case WriteFile(ino, buf) => if done then ino in fs.files && gs == Append(fs, ino, buf) else gs == fs
  }

  ghost predicate MadeOrNot(fs: Fs, path: seq<byte>, limit: nat, done: bool, gs: Fs, kind: word) {
    if done then Makeable(fs, path) && exists ino: word :: LeastFree(fs, limit, ino) && Made(fs, gs, path, ino, kind)
      else gs == fs
  }

  ghost predicate Unmade(fs: Fs, gs: Fs, path: seq<byte>) {
    var ns, s := Components(path), Lookup(fs, path);
    ns != [] && s.parent in fs.dirs && gs == DropDir(fs, s.parent, ns[|ns| - 1], s.ino)
  }

  /** What callers see to: absolute paths, names that fit, no rmdir of a dot, no file of exactly 140 blocks. */
  ghost predicate Proper(fs: Fs, c: Call) {
    match c
    case Mkdir(path) => Absolute(path) && Fitting(fs, path)
    case Create(path) => Absolute(path) && Fitting(fs, path)
    case Rmdir(path) => Absolute(path) && EndsPlain(path)
    case Unlink(path, _) => Absolute(path)
    case WriteFile(ino, buf) =>
      ino in fs.files && |fs.files[ino]| + |buf| < 0x1_0000_0000 && |fs.files[ino]| + |buf| != MAX_BLOCKS * BLOCK_SIZE
  }

  ghost predicate Leads(fs: Fs, c: Call, limit: nat, gs: Fs) {
    Does(fs, c, limit, true, gs) || Does(fs, c, limit, false, gs)
  }

  /** A file system that a run of calls can end in. */
  ghost predicate Reaches(fs: Fs, calls: seq<Call>, limit: nat, gs: Fs)
    decreases |calls|
  {
    if calls == [] then gs == fs
    else
      var before, last := calls[..|calls| - 1], calls[|calls| - 1];
      exists hs :: Reaches(fs, before, limit, hs) && Leads(hs, last, limit, gs)
  }

  lemma ReachesNext(fs: Fs, calls: seq<Call>, limit: nat, k: nat, hs: Fs, done: bool, gs: Fs)
    requires k < |calls| && Reaches(fs, calls[..k], limit, hs) && Does(hs, calls[k], limit, done, gs)
    ensures Reaches(fs, calls[..k + 1], limit, gs)
  {
    hide Does;
    assert calls[..k + 1][..k] == calls[..k] && Leads(hs, calls[k], limit, gs);
  }

  /** One call of a run; false only for a write that runs out of blocks. */
  method OneCall(p: Partition, c: Call, limit: nat, ghost fs: Fs) returns (ok: bool, ghost gs: Fs, ghost done: bool)
    requires Sound(p.V(), fs) && Proper(fs, c) && limit <= 0x1_0000_0000
    modifies p
    ensures ok ==> Sound(p.V(), gs) && Does(fs, c, limit, done, gs)
    ensures !ok ==> c.WriteFile? && OutOfBlocks(old(p.V()), c.ino, |c.buf|)
  {
    hide Sound, Components, Scan, LeastFree, Makeable, Fitting, Made, LeadsToLeaf, EndsPlain, Unlinkable, Unlinked,
         BlocksFor, OutOfBlocks,
         Lookup, Lost;
    ok, gs, done := true, fs, false;
    match c {
      case Mkdir(path) =>
        var r;
        ghost var k;
        r, gs, k := SysMkdir(p, path, limit, fs);
        done := r;
      case Create(path) =>
        var r;
        ghost var k;
        r, gs, k := SysCreate(p, path, limit, fs);
        done := r;
      case Rmdir(path) =>
        PlainEnd(path);
        var r;
        r, gs := SysRmdir(p, path, fs);
        done := r.Gone?;
      case Unlink(path, open) =>
        var r;
        r, gs := SysUnlink(p, path, open, fs);
        done := r;
      case WriteFile(ino, buf) =>
        SizeSpelled(p.V(), fs, ino);
        var size := p.inodes[ino].size + |buf|;
        var f := new OpenFile(ino);
        var r := WriteTo(p, f, buf, fs);
        done := r != -1;
        if r != -1 { gs := Append(fs, ino, buf); }
        ok := r != -1 || size > MAX_BLOCKS * BLOCK_SIZE;
    }
  }

  lemma PlainEnd(path: seq<byte>)
    requires EndsPlain(path)
    ensures Components(path) != []
  {
  }

  /**
   Any run of proper calls, up to a write that runs out of blocks, keeps the volume sound: bitmap and owners agree,
   every file and directory is in order, and the volume spells a file system that the abstract calls lead to.
   */
  method Session(p: Partition, calls: seq<Call>, limit: nat, ghost fs: Fs) returns (n: nat, ghost gs: Fs)
    requires Sound(p.V(), fs) && limit <= 0x1_0000_0000
    requires forall i, hs :: 0 <= i < |calls| && Reaches(fs, calls[..i], limit, hs) ==> Proper(hs, calls[i])
    modifies p
    ensures n <= |calls| && Reaches(fs, calls[..n], limit, gs)
    ensures n == |calls| ==> Sound(p.V(), gs)
    ensures n < |calls| ==> calls[n].WriteFile?
  {
    hide Sound, Does, Proper, OutOfBlocks;
    n, gs := 0, fs;
    while n < |calls|
      invariant 0 <= n <= |calls| && Sound(p.V(), gs) && Reaches(fs, calls[..n], limit, gs)
    {
      ghost var hs, done;
      var ok;
      ok, hs, done := OneCall(p, calls[n], limit, gs);
      if !ok { return; }
      ReachesNext(fs, calls, limit, n, gs, done, hs);
      gs := hs;
      n := n + 1;
    }
  }
}

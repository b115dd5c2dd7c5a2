/**
 What a user of paths may rely on: what mkdir or create made is found where the path says, every other path leads where
 it led, and rmdir or unlink of the same path puts everything back.
 */
module PathLaws {
  import opened Common
  import opened Volume
  import opened DirCells
  import opened DirSession
  import opened Paths
  import opened Resolve
  import opened FileSystem
  import opened PathCalls

  /** Everything bound in t is bound in u, to the same. */
  ghost predicate Within(t: Tree, u: Tree) {
    forall d, n :: d in t && n in t[d] ==> d in u && n in u[d] && u[d][n] == t[d][n]
  }

  /** Bindings that stay keep the paths that use them. */
  lemma {:induction false} WalkMore(t: Tree, u: Tree, d: nat, ns: seq<Name>)
    requires Within(t, u) && Walk(t, d, ns).Just?
    ensures Walk(u, d, ns) == Walk(t, d, ns)
    decreases |ns|
  {
    if ns != [] { WalkMore(t, u, t[d][ns[0]].0, ns[1..]); }
  }

  /** The directory that search_file reports is where all consumed names but the last lead. */
  lemma {:induction false} ScanParent(t: Tree, parent: nat, d: nat, ns: seq<Name>, depth: nat)
    requires TreeOk(t) && d in t && ns != []
    ensures var r := Scan(t, parent, d, ns, depth);
      depth < r.depth <= depth + |ns| && Walk(t, d, ns[..r.depth - depth - 1]) == Just(r.parent)
    decreases |ns|
  {
    hide TreeOk;
    var r := Scan(t, parent, d, ns, depth);
    if ns[0] in t[d] && t[d][ns[0]].1 == FT_DIRECTORY && |ns| > 1 {
      DirEntryInTree(t, d, ns[0]);
      ScanParent(t, d, t[d][ns[0]].0, ns[1..], depth + 1);
      var k := r.depth - depth - 1;
      assert ns[..k] == [ns[0]] + ns[1..][..k - 1];
      assert ns[..k][0] == ns[0] && ns[..k][1..] == ns[1..][..k - 1];
    } else if ns[0] in t[d] && t[d][ns[0]].1 == FT_DIRECTORY {
      assert ns[1..] == [];
    }
  }

  /** The number and name of something about to be made. */
  ghost predicate Fresh(fs: Fs, path: seq<byte>, ino: word) {
    FsOk(fs) && Makeable(fs, path) && Components(path) != [] && NameOk(Components(path)[|Components(path)| - 1])
    && ino !in fs.dirs && ino !in fs.files
  }

  lemma FreshPlace(fs: Fs, path: seq<byte>, ino: word)
    requires Fresh(fs, path, ino)
    ensures var ns, d := Components(path), Lookup(fs, path).parent;
      ns != [] && CanBind(fs, d, ns[|ns| - 1], ino) && Walk(fs.dirs, 0, ns[..|ns| - 1]) == Just(d)
  {
    hide TreeOk, Rooted, FilesOk, Components, NameOk, Walk;
    MakeablePlace(fs, path);
    TreeAtRoot(fs.dirs);
    ScanParent(fs.dirs, 0, 0, Components(path), 0);
  }

  /** After mkdir or create the path leads to what was made, and every path that led somewhere leads there still. */
  lemma MadeResolves(fs: Fs, gs: Fs, path: seq<byte>, ino: word, kind: word)
    requires Fresh(fs, path, ino) && Made(fs, gs, path, ino, kind)
    ensures Walk(gs.dirs, 0, Components(path)) == Just(ino)
    ensures forall ns :: Walk(fs.dirs, 0, ns).Just? ==> Walk(gs.dirs, 0, ns) == Walk(fs.dirs, 0, ns)
  {
    hide FsOk, Components, NameOk, Walk, Scan, Plain;
    FreshPlace(fs, path, ino);
    var ns, d := Components(path), Lookup(fs, path).parent;
    assert Within(fs.dirs, gs.dirs);
    forall ms | Walk(fs.dirs, 0, ms).Just? ensures Walk(gs.dirs, 0, ms) == Walk(fs.dirs, 0, ms) {
      WalkMore(fs.dirs, gs.dirs, 0, ms);
    }
    WalkLast(gs.dirs, ns);
  }

  // ---------------------------------------------------------------- made, then removed

  lemma BindUnbind(t: Tree, d: nat, n: Name, ino: word, kind: word)
    requires d in t && n !in t[d]
    ensures Unbind(Bind(t, d, n, ino, kind), d, n) == t
  {
    assert t[d][n := (ino, kind)] - {n} == t[d];
  }

  /** mkdir and then rmdir of the same path: rmdir accepts it, and the file system is what it was. */
  lemma MkdirRmdir(fs: Fs, gs: Fs, hs: Fs, path: seq<byte>, ino: word)
    requires Fresh(fs, path, ino) && Made(fs, gs, path, ino, FT_DIRECTORY)
    ensures LeadsToLeaf(gs, path) && EndsPlain(path)
    ensures Unmade(gs, hs, path) ==> hs == fs
  {
    hide FsOk, Components, NameOk, Walk, Plain, Dot, DotDot, AddDir, DropDir, OnlyDotNames, Scan;
    FreshPlace(fs, path, ino);
    var ns, d := Components(path), Lookup(fs, path).parent;
    var n := ns[|ns| - 1];
    AddDirTree(fs, d, n, ino);
    MadeResolves(fs, gs, path, ino, FT_DIRECTORY);
    assert Walk(gs.dirs, 0, ns[..|ns| - 1]) == Just(d);
    MadeLeaf(fs, gs, d, n, ino);
    ResolvedAt(gs.dirs, ns, ino);
    ResolvedParent(gs.dirs, ns, ino, d);
  }

  lemma MadeLeaf(fs: Fs, gs: Fs, d: word, n: Name, ino: word)
    requires CanBind(fs, d, n, ino) && gs == AddDir(fs, d, n, ino)
    ensures Plain(n) && ino in gs.dirs && OnlyDotNames(gs.dirs[ino]) && d in gs.dirs && DropDir(gs, d, n, ino) == fs
  {
    hide FsOk, NameOk, Plain, Dot, DotDot, OnlyDotNames, FreshDir, Bind, Unbind;
    FreshUnique(ino, d);
    TakenOut(fs.dirs, d, n, ino);
    BindKeys(fs.dirs, d, n, ino, FT_DIRECTORY);
  }

  lemma BindKeys(t: Tree, d: nat, n: Name, ino: word, kind: word)
    requires d in t
    ensures d in Bind(t, d, n, ino, kind)
  {
  }

  lemma TakenOut(t: Tree, d: nat, n: Name, ino: word)
    requires d in t && ino !in t && d < 0x1_0000_0000 && n !in t[d]
    ensures Unbind(Bind(t, d, n, ino, FT_DIRECTORY)[ino := FreshDir(ino, d)], d, n) - {ino} == t
  {
    var b := Bind(t, d, n, ino, FT_DIRECTORY);
    BindUnbind(t, d, n, ino, FT_DIRECTORY);
    assert b[ino := FreshDir(ino, d)][d] == b[d];
    assert Unbind(b[ino := FreshDir(ino, d)], d, n) == Unbind(b, d, n)[ino := FreshDir(ino, d)];
  }

  /** A path that resolves to a directory is found whole. */
  lemma ResolvedAt(t: Tree, ns: seq<Name>, ino: nat)
    requires TreeOk(t) && Walk(t, 0, ns) == Just(ino) && ino in t
    ensures var r := Scan(t, 0, 0, ns, 0); r.ok && r.ino == ino && r.kind == FT_DIRECTORY && r.depth == |ns|
  {
    hide TreeOk, Walk, Scan;
    TreeAtRoot(t);
    ScanAgrees(t, 0, 0, ns, 0);
    ScanDirectory(t, 0, 0, ns, 0);
  }

  lemma ResolvedParent(t: Tree, ns: seq<Name>, ino: nat, d: nat)
    requires TreeOk(t) && Walk(t, 0, ns) == Just(ino) && ns != [] && Walk(t, 0, ns[..|ns| - 1]) == Just(d)
    ensures Scan(t, 0, 0, ns, 0).parent == d
  {
    hide TreeOk, Walk, Scan;
    TreeAtRoot(t);
    ScanAgrees(t, 0, 0, ns, 0);
    ScanParent(t, 0, 0, ns, 0);
  }

  /** create and then unlink of the same path, the file not being open: the file system is what it was. */
  lemma CreateUnlink(fs: Fs, gs: Fs, hs: Fs, path: seq<byte>, ino: word, open: set<nat>)
    requires Fresh(fs, path, ino) && Made(fs, gs, path, ino, FT_REGULAR)
    ensures Unlinkable(gs, path, open) <==> ino !in open
    ensures Unlinked(gs, hs, path) ==> hs == fs
  {
    hide FsOk, Components, NameOk, Walk, Plain, Dot, DotDot, AddFile, DropFile, Scan, Unlinked, Unlinkable;
    FreshPlace(fs, path, ino);
    var ns, d := Components(path), Lookup(fs, path).parent;
    var n := ns[|ns| - 1];
    AddFileTree(fs, d, n, ino);
    MadeResolves(fs, gs, path, ino, FT_REGULAR);
    assert Walk(gs.dirs, 0, ns[..|ns| - 1]) == Just(d);
    FileTakenOut(fs, d, n, ino);
    ResolvedParent(gs.dirs, ns, ino, d);
    ResolvedFile(gs.dirs, ns, ino);
    UnlinkedIs(gs, hs, path, d, ino);
  }

  lemma UnlinkedIs(gs: Fs, hs: Fs, path: seq<byte>, d: nat, ino: word)
    requires var r, ns := Lookup(gs, path), Components(path);
      r.ok && r.ino == ino && r.kind == FT_REGULAR && r.depth == |ns| && r.parent == d && ns != []
    requires d in gs.dirs
    ensures forall open :: Unlinkable(gs, path, open) <==> ino !in open
    ensures Unlinked(gs, hs, path) ==> hs == DropFile(gs, d, Components(path)[|Components(path)| - 1], ino)
  {
    hide Components, Scan, Plain;
  }

  lemma FileTakenOut(fs: Fs, d: nat, n: Name, ino: word)
    requires d in fs.dirs && n !in fs.dirs[d] && ino !in fs.files && ino !in fs.dirs
    ensures ino !in AddFile(fs, d, n, ino).dirs
    ensures d in AddFile(fs, d, n, ino).dirs && DropFile(AddFile(fs, d, n, ino), d, n, ino) == fs
  {
    BindUnbind(fs.dirs, d, n, ino, FT_REGULAR);
    assert fs.files[ino := []] - {ino} == fs.files;
  }

  lemma ResolvedFile(t: Tree, ns: seq<Name>, ino: nat)
    requires TreeOk(t) && Walk(t, 0, ns) == Just(ino) && ino !in t
    ensures var r := Scan(t, 0, 0, ns, 0); r.ok && r.ino == ino && r.kind == FT_REGULAR && r.depth == |ns|
  {
    hide TreeOk, Walk, Scan;
    TreeAtRoot(t);
    ScanAgrees(t, 0, 0, ns, 0);
    ScanDirectory(t, 0, 0, ns, 0);
    ScanKinds(t, 0, 0, ns, 0);
  }

  // ---------------------------------------------------------------- what a removal takes away

  /** After rmdir the path leads nowhere, and every path of plain names to anything else leads where it led. */
  lemma RmdirTakes(fs: Fs, gs: Fs, path: seq<byte>, ns: seq<Name>)
    requires FsOk(fs) && LeadsToLeaf(fs, path) && EndsPlain(path) && Unmade(fs, gs, path)
    ensures Walk(gs.dirs, 0, Components(path)) == Nothing
    ensures Walk(gs.dirs, 0, ns).Just? ==> Walk(fs.dirs, 0, ns) == Walk(gs.dirs, 0, ns)
    ensures Undotted(ns) && Walk(fs.dirs, 0, ns).Just? && Walk(fs.dirs, 0, ns).value != Lookup(fs, path).ino ==>
      Walk(gs.dirs, 0, ns) == Walk(fs.dirs, 0, ns)
  {
    hide TreeOk, Rooted, FilesOk, Components, NameOk, Walk, Plain, Dot, DotDot, OnlyDotNames, Scan;
    var ms, s := Components(path), Lookup(fs, path);
    var n := ms[|ms| - 1];
    FoundDir(fs, path);
    LeafParent(fs, path);
    LeafPlace(fs, s.parent, n, s.ino);
    DropsOnly(fs, gs, s.parent, n, s.ino);
    if Walk(gs.dirs, 0, ns).Just? { WalkMore(gs.dirs, fs.dirs, 0, ns); }
    EndsElsewhere(fs, gs, ms, s.parent, n, s.ino);
    if Undotted(ns) && Walk(fs.dirs, 0, ns).Just? && Walk(fs.dirs, 0, ns).value != s.ino {
      StillLeads(fs, gs, s.parent, n, s.ino, ns);
    }
  }

  lemma DropsOnly(fs: Fs, gs: Fs, parent: nat, n: Name, ino: nat)
    requires parent in fs.dirs && ino != parent && gs == DropDir(fs, parent, n, ino)
    ensures Within(gs.dirs, fs.dirs) && parent in gs.dirs && n !in gs.dirs[parent] && ino !in gs.dirs
  {
    assert gs.dirs[parent] == fs.dirs[parent] - {n};
    assert forall d :: d in gs.dirs && d != parent ==> d in fs.dirs && gs.dirs[d] == fs.dirs[d];
  }

  lemma EndsElsewhere(fs: Fs, gs: Fs, ms: seq<Name>, parent: nat, n: Name, ino: nat)
    requires ms != [] && ms[|ms| - 1] == n && Within(gs.dirs, fs.dirs) && parent in gs.dirs && n !in gs.dirs[parent]
    requires FsOk(fs) && Walk(fs.dirs, 0, ms) == Just(ino) && LeafDir(fs, parent, n, ino)
    ensures Walk(gs.dirs, 0, ms) == Nothing
  {
    hide FsOk, Walk, OnlyDotNames;
    WalkLast(gs.dirs, ms);
    WalkLast(fs.dirs, ms);
    var init := ms[..|ms| - 1];
    var e := Walk(fs.dirs, 0, init).value;
    if Walk(gs.dirs, 0, init).Just? { WalkMore(gs.dirs, fs.dirs, 0, init); }
    DirKind(fs, e, n, ino);
    LeafNamed(fs, parent, n, ino, e, n);
  }

  lemma DirKind(fs: Fs, e: nat, n: Name, ino: nat)
    requires FsOk(fs) && e in fs.dirs && n in fs.dirs[e] && fs.dirs[e][n].0 == ino && ino in fs.dirs
    ensures fs.dirs[e][n].1 == FT_DIRECTORY
  {
    hide TreeOk, Rooted;
    EntryTarget(fs, e, n);
  }

  lemma {:induction false} StillLeads(fs: Fs, gs: Fs, parent: nat, n: Name, ino: nat, ns: seq<Name>)
    requires LeafDir(fs, parent, n, ino) && ino != 0 && gs == DropDir(fs, parent, n, ino) && Undotted(ns)
    requires Walk(fs.dirs, 0, ns).Just? && Walk(fs.dirs, 0, ns).value != ino
    ensures Walk(gs.dirs, 0, ns) == Walk(fs.dirs, 0, ns)
    decreases |ns|
  {
    hide FsOk, Walk, OnlyDotNames, DropDir;
    WalkStart(fs.dirs);
    WalkStart(gs.dirs);
    if ns != [] {
      var init, m := ns[..|ns| - 1], ns[|ns| - 1];
      WalkLast(fs.dirs, ns);
      WalkLast(gs.dirs, ns);
      var e := Walk(fs.dirs, 0, init).value;
      NotThrough(fs, parent, n, ino, e, m);
      StillLeads(fs, gs, parent, n, ino, init);
      StillBound(fs, gs, parent, n, ino, e, m);
    }
  }

  /** A plain name is not bound in a directory of only the dots. */
  lemma NotThrough(fs: Fs, parent: nat, n: Name, ino: nat, e: nat, m: Name)
    requires LeafDir(fs, parent, n, ino) && e in fs.dirs && m in fs.dirs[e] && m != Dot() && m != DotDot()
    ensures e != ino
  {
    hide FsOk;
  }

  lemma StillBound(fs: Fs, gs: Fs, parent: nat, n: Name, ino: nat, e: nat, m: Name)
    requires LeafDir(fs, parent, n, ino) && gs == DropDir(fs, parent, n, ino) && e != ino
    requires e in fs.dirs && m in fs.dirs[e] && fs.dirs[e][m].0 != ino
    ensures e in gs.dirs && m in gs.dirs[e] && gs.dirs[e][m] == fs.dirs[e][m]
  {
    hide FsOk, OnlyDotNames;
  }

  /** After unlink no path leads to the file, and every path to anything else leads where it led. */
  lemma UnlinkTakes(fs: Fs, gs: Fs, path: seq<byte>, ns: seq<Name>)
    requires FsOk(fs) && Lookup(fs, path).ok && Lookup(fs, path).kind == FT_REGULAR && Unlinked(fs, gs, path)
    ensures Walk(gs.dirs, 0, ns) ==
      if Walk(fs.dirs, 0, ns) == Just(Lookup(fs, path).ino) then Nothing else Walk(fs.dirs, 0, ns)
  {
    hide FsOk, Components, Walk, Scan;
    var r := Lookup(fs, path);
    var n := Components(path)[r.depth - 1];
    FoundFile(fs, path);
    UnlinkWalk(fs, gs, r.parent, n, r.ino, ns);
  }

  lemma {:induction false} UnlinkWalk(fs: Fs, gs: Fs, parent: nat, n: Name, ino: nat, ns: seq<Name>)
    requires FsOk(fs) && Names(fs.dirs, parent, n, ino, FT_REGULAR) && gs == DropFile(fs, parent, n, ino)
    ensures Walk(gs.dirs, 0, ns) == if Walk(fs.dirs, 0, ns) == Just(ino) then Nothing else Walk(fs.dirs, 0, ns)
    decreases |ns|
  {
    hide FsOk, Walk;
    WalkStart(fs.dirs);
    WalkStart(gs.dirs);
    NotFile(fs, parent, n, ino);
    if ns != [] {
      var init, m := ns[..|ns| - 1], ns[|ns| - 1];
      WalkLast(fs.dirs, ns);
      WalkLast(gs.dirs, ns);
      UnlinkWalk(fs, gs, parent, n, ino, init);
      if Walk(fs.dirs, 0, init).Just? {
        var e := Walk(fs.dirs, 0, init).value;
        if e in fs.dirs && m in fs.dirs[e] && fs.dirs[e][m].0 == ino { OneName(fs, parent, n, ino, e, m); }
      }
    }
  }

  lemma NotFile(fs: Fs, parent: nat, n: Name, ino: nat)
    requires FsOk(fs) && Names(fs.dirs, parent, n, ino, FT_REGULAR)
    ensures ino !in fs.dirs && ino != 0 && ino in fs.files
  {
    hide TreeOk, Rooted;
    TreeAtRoot(fs.dirs);
  }

  lemma OneName(fs: Fs, parent: nat, n: Name, ino: nat, e: nat, m: Name)
    requires FsOk(fs) && Names(fs.dirs, parent, n, ino, FT_REGULAR)
    requires e in fs.dirs && m in fs.dirs[e] && fs.dirs[e][m].0 == ino
    ensures e == parent && m == n
  {
    hide TreeOk, Rooted;
    NotFile(fs, parent, n, ino);
    EntryTarget(fs, e, m);
  }
}

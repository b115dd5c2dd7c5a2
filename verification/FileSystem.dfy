/**
 Whole runs of the system calls that change the file system, by path: mkdir, rmdir, file creation, unlink and write.
 The volume always spells one abstract file system, a tree of dictionaries and a map of files, and every call changes
 both alike.
 */
module FileSystem {
  import opened Common
  import opened Volume
  import opened FileData
  import FileSession
  import opened DirCells
  import opened Directory
  import opened DirTree
  import opened DirSession
  import opened Paths
  import opened Resolve

  datatype Fs = Fs(dirs: Tree, files: map<nat, seq<byte>>)

  // ---------------------------------------------------------------- well-formed file systems

  /** A non-root directory is entered in the directory that its ".." names. */
  ghost predicate HasEntry(t: Tree, d: nat)
    requires d in t
  {
    && DotDot() in t[d] && t[d][DotDot()].0 in t
    && exists n :: Names(t, t[d][DotDot()].0, n, d, FT_DIRECTORY)
  }

  /** Directory d binds the plain name n to an inode of a type. */
  predicate Names(t: Tree, d: nat, n: Name, ino: nat, kind: word) {
    d in t && n in t[d] && Plain(n) && t[d][n].0 == ino && t[d][n].1 == kind
  }

  /** Every file has exactly one entry, in one directory. */
  ghost predicate FilesOk(fs: Fs) {
    && (forall d, n, i :: Names(fs.dirs, d, n, i, FT_REGULAR) ==> i in fs.files)
    && (forall d, n, e, m, i :: Names(fs.dirs, d, n, i, FT_REGULAR) && Names(fs.dirs, e, m, i, FT_REGULAR) ==>
          d == e && n == m)
    && (forall f :: f in fs.files ==> f !in fs.dirs && exists d, n :: Names(fs.dirs, d, n, f, FT_REGULAR))
  }

  ghost predicate Rooted(t: Tree) {
    forall d :: d in t && d != 0 ==> HasEntry(t, d)
  }

  ghost predicate FsOk(fs: Fs) {
    TreeOk(fs.dirs) && Rooted(fs.dirs) && FilesOk(fs)
  }

  // ---------------------------------------------------------------- the abstract operations

  function Bind(t: Tree, d: nat, n: Name, ino: word, kind: word): Tree
    requires d in t
  {
    t[d := t[d][n := (ino, kind)]]
  }

  function Unbind(t: Tree, d: nat, n: Name): Tree
    requires d in t
  {
    t[d := t[d] - {n}]
  }

  function FreshDir(self: word, parent: word): Dict {
    map[Dot() := (self, FT_DIRECTORY), DotDot() := (parent, FT_DIRECTORY)]
  }

  function AddDir(fs: Fs, parent: word, n: Name, ino: word): Fs
    requires parent in fs.dirs
  {
    fs.(dirs := Bind(fs.dirs, parent, n, ino, FT_DIRECTORY)[ino := FreshDir(ino, parent)])
  }

  function DropDir(fs: Fs, parent: nat, n: Name, ino: nat): Fs
    requires parent in fs.dirs
  {
    fs.(dirs := Unbind(fs.dirs, parent, n) - {ino})
  }

  function AddFile(fs: Fs, parent: nat, n: Name, ino: word): Fs
    requires parent in fs.dirs
  {
    Fs(Bind(fs.dirs, parent, n, ino, FT_REGULAR), fs.files[ino := []])
  }

  function DropFile(fs: Fs, parent: nat, n: Name, ino: nat): Fs
    requires parent in fs.dirs
  {
    Fs(Unbind(fs.dirs, parent, n), fs.files - {ino})
  }

  function Append(fs: Fs, ino: nat, buf: seq<byte>): Fs
    requires ino in fs.files
  {
    fs.(files := fs.files[ino := fs.files[ino] + buf])
  }

  // ---------------------------------------------------------------- trees, one directory at a time

  lemma DotsApart()
    ensures Dot() != DotDot() && !Plain(Dot()) && !Plain(DotDot())
  {
  }

  /** The two dots of directory d. */
  ghost predicate DotsOk(t: Tree, d: nat)
    requires d in t
  {
    && Dot() in t[d] && t[d][Dot()] == (d, FT_DIRECTORY)
    && DotDot() in t[d] && t[d][DotDot()].1 == FT_DIRECTORY && t[d][DotDot()].0 in t
  }

  ghost predicate Unique(m: Dict) {
    forall a, b :: a in m && b in m && Plain(a) && Plain(b) && m[a].0 == m[b].0 ==> a == b
  }

  lemma TreeAt(t: Tree, d: nat)
    requires TreeOk(t) && d in t
    ensures DotsOk(t, d) && Unique(t[d]) && 0 in t && DotsOk(t, 0) && t[0][DotDot()].0 == 0
  {
    hide Plain, Dot, DotDot, NameOk, EntryOk;
  }

  lemma TreeEntry(t: Tree, d: nat, n: Name)
    requires TreeOk(t) && d in t && n in t[d] && Plain(n)
    ensures EntryOk(t, d, n)
  {
    hide Plain, Dot, DotDot, NameOk, EntryOk;
  }

  lemma TreeFrom(t: Tree)
    requires 0 in t && DotDot() in t[0] && t[0][DotDot()].0 == 0
    requires forall d :: d in t ==> DotsOk(t, d) && Unique(t[d])
    requires forall d, n :: d in t && n in t[d] && Plain(n) ==> EntryOk(t, d, n)
    ensures TreeOk(t)
  {
    hide Plain, Dot, DotDot, NameOk, EntryOk;
  }

  lemma BindUnique(m: Dict, n: Name, ino: word, kind: word)
    requires Unique(m) && forall a :: a in m ==> m[a].0 != ino
    ensures Unique(m[n := (ino, kind)])
  {
    hide Plain;
  }

  lemma UnbindUnique(m: Dict, n: Name)
    requires Unique(m)
    ensures Unique(m - {n})
  {
    hide Plain;
  }

  /** An entry names a directory of the tree or a file. */
  lemma EntryTarget(fs: Fs, d: nat, n: Name)
    requires FsOk(fs) && d in fs.dirs && n in fs.dirs[d]
    ensures var (i, kind) := fs.dirs[d][n];
      if kind == FT_DIRECTORY then i in fs.dirs
        else Plain(n) && kind == FT_REGULAR && i in fs.files && Names(fs.dirs, d, n, i, FT_REGULAR)
  {
    hide TreeOk, Rooted, Dot, DotDot, NameOk;
    TreeAt(fs.dirs, d);
    if Plain(n) {
      TreeEntry(fs.dirs, d, n);
      assert fs.dirs[d][n].1 == FT_REGULAR ==> Names(fs.dirs, d, n, fs.dirs[d][n].0, FT_REGULAR);
    }
  }

  /** Nothing names an inode number that is in use nowhere. */
  lemma FreshNumber(fs: Fs, d: nat, ino: nat)
    requires FsOk(fs) && d in fs.dirs && ino !in fs.dirs && ino !in fs.files
    ensures forall n :: n in fs.dirs[d] ==> fs.dirs[d][n].0 != ino
  {
    hide FsOk;
    forall n | n in fs.dirs[d] ensures fs.dirs[d][n].0 != ino { EntryTarget(fs, d, n); }
  }

  // ---------------------------------------------------------------- the tree after each operation

  ghost predicate CanBind(fs: Fs, parent: nat, n: Name, ino: nat) {
    FsOk(fs) && parent in fs.dirs && n !in fs.dirs[parent] && NameOk(n) && Plain(n) && ino !in fs.dirs
      && ino !in fs.files
  }

  lemma NewNamePlain(t: Tree, d: nat, n: Name)
    requires TreeOk(t) && d in t && n !in t[d]
    ensures Plain(n)
  {
    hide TreeOk, Dot, DotDot;
    TreeAt(t, d);
  }

  lemma AddDirDots(fs: Fs, parent: word, n: Name, ino: word, d: nat)
    requires CanBind(fs, parent, n, ino) && d in AddDir(fs, parent, n, ino).dirs
    ensures var u := AddDir(fs, parent, n, ino).dirs; DotsOk(u, d) && Unique(u[d])
  {
    hide TreeOk, Rooted, FilesOk, NameOk, Dot, DotDot, Unique;
    DotsApart();
    if d == ino {
      FreshUnique(ino, parent);
    } else {
      TreeAt(fs.dirs, d);
      if d == parent {
        FreshNumber(fs, parent, ino);
        BindUnique(fs.dirs[parent], n, ino, FT_DIRECTORY);
      }
    }
  }

  lemma FreshUnique(self: word, parent: word)
    ensures Unique(FreshDir(self, parent)) && OnlyDotNames(FreshDir(self, parent))
  {
  }

  lemma AddDirEntry(fs: Fs, parent: word, n: Name, ino: word, d: nat, m: Name)
    requires CanBind(fs, parent, n, ino)
    requires var u := AddDir(fs, parent, n, ino).dirs; d in u && m in u[d] && Plain(m)
    ensures EntryOk(AddDir(fs, parent, n, ino).dirs, d, m)
  {
    hide TreeOk, Rooted, FilesOk, NameOk, Dot, DotDot;
    DotsApart();
    TreeAt(fs.dirs, parent);
    if d == parent && m == n {
    } else if d != ino {
      FreshNumber(fs, d, ino);
      TreeEntry(fs.dirs, d, m);
    }
  }

  lemma AddDirTree(fs: Fs, parent: word, n: Name, ino: word)
    requires CanBind(fs, parent, n, ino)
    ensures TreeOk(AddDir(fs, parent, n, ino).dirs)
  {
    hide TreeOk, Rooted, FilesOk, NameOk, Dot, DotDot, Plain, Unique, EntryOk;
    var u := AddDir(fs, parent, n, ino).dirs;
    DotsApart();
    TreeAt(fs.dirs, parent);
    forall d | d in u ensures DotsOk(u, d) && Unique(u[d]) { AddDirDots(fs, parent, n, ino, d); }
    forall d, m | d in u && m in u[d] && Plain(m) ensures EntryOk(u, d, m) { AddDirEntry(fs, parent, n, ino, d, m); }
    TreeFrom(u);
  }

  lemma AddFileDots(fs: Fs, parent: nat, n: Name, ino: word, d: nat)
    requires CanBind(fs, parent, n, ino) && d in fs.dirs
    ensures var u := AddFile(fs, parent, n, ino).dirs; DotsOk(u, d) && Unique(u[d])
  {
    hide TreeOk, Rooted, FilesOk, NameOk, Dot, DotDot, Unique;
    DotsApart();
    TreeAt(fs.dirs, d);
    if d == parent {
      FreshNumber(fs, parent, ino);
      BindUnique(fs.dirs[parent], n, ino, FT_REGULAR);
    }
  }

  lemma AddFileEntry(fs: Fs, parent: nat, n: Name, ino: word, d: nat, m: Name)
    requires CanBind(fs, parent, n, ino)
    requires var u := AddFile(fs, parent, n, ino).dirs; d in u && m in u[d] && Plain(m)
    ensures EntryOk(AddFile(fs, parent, n, ino).dirs, d, m)
  {
    hide TreeOk, Rooted, FilesOk, NameOk, Dot, DotDot;
    DotsApart();
    TreeAt(fs.dirs, parent);
    if !(d == parent && m == n) { TreeEntry(fs.dirs, d, m); }
  }

  lemma AddFileTree(fs: Fs, parent: nat, n: Name, ino: word)
    requires CanBind(fs, parent, n, ino)
    ensures TreeOk(AddFile(fs, parent, n, ino).dirs)
  {
    hide TreeOk, Rooted, FilesOk, NameOk, Dot, DotDot, Plain, Unique, EntryOk;
    var u := AddFile(fs, parent, n, ino).dirs;
    DotsApart();
    TreeAt(fs.dirs, parent);
    forall d | d in u ensures DotsOk(u, d) && Unique(u[d]) { AddFileDots(fs, parent, n, ino, d); }
    forall d, m | d in u && m in u[d] && Plain(m) ensures EntryOk(u, d, m) { AddFileEntry(fs, parent, n, ino, d, m); }
    TreeFrom(u);
  }

  predicate OnlyDotNames(m: Dict) { forall n :: n in m ==> !Plain(n) }

  /** An entry for a directory without entries of its own. */
  ghost predicate LeafDir(fs: Fs, parent: nat, n: Name, ino: nat) {
    FsOk(fs) && Names(fs.dirs, parent, n, ino, FT_DIRECTORY) && ino in fs.dirs && OnlyDotNames(fs.dirs[ino])
  }

  lemma LeafPlace(fs: Fs, parent: nat, n: Name, ino: nat)
    requires LeafDir(fs, parent, n, ino)
    ensures ino != 0 && ino != parent && DotDot() in fs.dirs[ino] && fs.dirs[ino][DotDot()].0 == parent
  {
    hide TreeOk, Rooted, FilesOk, NameOk, Dot, DotDot;
    TreeEntry(fs.dirs, parent, n);
  }

  /** A directory without entries is nobody's parent. */
  lemma LeafChildless(fs: Fs, parent: nat, n: Name, ino: nat, d: nat)
    requires LeafDir(fs, parent, n, ino) && d in fs.dirs
    ensures DotDot() in fs.dirs[d] && fs.dirs[d][DotDot()].0 != ino
  {
    hide TreeOk, FilesOk, NameOk, Dot, DotDot;
    TreeAt(fs.dirs, d);
    LeafPlace(fs, parent, n, ino);
    if d != 0 {
      assert HasEntry(fs.dirs, d);
      var m :| Names(fs.dirs, fs.dirs[d][DotDot()].0, m, d, FT_DIRECTORY);
    }
  }

  /** It has one entry. */
  lemma LeafNamed(fs: Fs, parent: nat, n: Name, ino: nat, d: nat, m: Name)
    requires LeafDir(fs, parent, n, ino) && Names(fs.dirs, d, m, ino, FT_DIRECTORY)
    ensures d == parent && m == n
  {
    hide TreeOk, Rooted, FilesOk, NameOk, Dot, DotDot;
    LeafPlace(fs, parent, n, ino);
    TreeEntry(fs.dirs, d, m);
    TreeAt(fs.dirs, d);
  }

  lemma DropDirDots(fs: Fs, parent: nat, n: Name, ino: nat, d: nat)
    requires LeafDir(fs, parent, n, ino) && d in DropDir(fs, parent, n, ino).dirs
    ensures var u := DropDir(fs, parent, n, ino).dirs; DotsOk(u, d) && Unique(u[d])
  {
    hide TreeOk, Rooted, FilesOk, NameOk, Dot, DotDot, Unique, OnlyDotNames;
    DotsApart();
    TreeAt(fs.dirs, d);
    LeafChildless(fs, parent, n, ino, d);
    if d == parent { UnbindUnique(fs.dirs[parent], n); }
  }

  lemma DropDirEntry(fs: Fs, parent: nat, n: Name, ino: nat, d: nat, m: Name)
    requires LeafDir(fs, parent, n, ino)
    requires var u := DropDir(fs, parent, n, ino).dirs; d in u && m in u[d] && Plain(m)
    ensures EntryOk(DropDir(fs, parent, n, ino).dirs, d, m)
  {
    hide TreeOk, Rooted, FilesOk, NameOk, Dot, DotDot, OnlyDotNames;
    DotsApart();
    TreeEntry(fs.dirs, d, m);
    if Names(fs.dirs, d, m, ino, FT_DIRECTORY) { LeafNamed(fs, parent, n, ino, d, m); }
  }

  lemma DropDirTree(fs: Fs, parent: nat, n: Name, ino: nat)
    requires LeafDir(fs, parent, n, ino)
    ensures TreeOk(DropDir(fs, parent, n, ino).dirs)
  {
    hide TreeOk, Rooted, FilesOk, NameOk, Dot, DotDot, Unique, OnlyDotNames, EntryOk;
    var u := DropDir(fs, parent, n, ino).dirs;
    DotsApart();
    LeafPlace(fs, parent, n, ino);
    TreeAt(fs.dirs, parent);
    forall d | d in u ensures DotsOk(u, d) && Unique(u[d]) { DropDirDots(fs, parent, n, ino, d); }
    forall d, m | d in u && m in u[d] && Plain(m) ensures EntryOk(u, d, m) { DropDirEntry(fs, parent, n, ino, d, m); }
    TreeFrom(u);
  }

  lemma DropFileDots(fs: Fs, parent: nat, n: Name, ino: nat, d: nat)
    requires FsOk(fs) && Names(fs.dirs, parent, n, ino, FT_REGULAR) && d in fs.dirs
    ensures var u := DropFile(fs, parent, n, ino).dirs; DotsOk(u, d) && Unique(u[d])
  {
    hide TreeOk, Rooted, FilesOk, NameOk, Dot, DotDot, Unique;
    DotsApart();
    TreeAt(fs.dirs, d);
    if d == parent { UnbindUnique(fs.dirs[parent], n); }
  }

  lemma DropFileEntry(fs: Fs, parent: nat, n: Name, ino: nat, d: nat, m: Name)
    requires FsOk(fs) && Names(fs.dirs, parent, n, ino, FT_REGULAR)
    requires var u := DropFile(fs, parent, n, ino).dirs; d in u && m in u[d] && Plain(m)
    ensures EntryOk(DropFile(fs, parent, n, ino).dirs, d, m)
  {
    hide TreeOk, Rooted, FilesOk, NameOk, Dot, DotDot;
    DotsApart();
    TreeEntry(fs.dirs, d, m);
  }

  lemma DropFileTree(fs: Fs, parent: nat, n: Name, ino: nat)
    requires FsOk(fs) && Names(fs.dirs, parent, n, ino, FT_REGULAR)
    ensures TreeOk(DropFile(fs, parent, n, ino).dirs)
  {
    hide TreeOk, Rooted, FilesOk, NameOk, Dot, DotDot, Unique, EntryOk;
    var u := DropFile(fs, parent, n, ino).dirs;
    DotsApart();
    TreeAt(fs.dirs, parent);
    forall d | d in u ensures DotsOk(u, d) && Unique(u[d]) { DropFileDots(fs, parent, n, ino, d); }
    forall d, m | d in u && m in u[d] && Plain(m) ensures EntryOk(u, d, m) { DropFileEntry(fs, parent, n, ino, d, m); }
    TreeFrom(u);
  }

  // ---------------------------------------------------------------- roots and files after each operation

  /** Changes that touch no entry of a file. */
  lemma SameFileNames(fs: Fs, gs: Fs)
    requires FilesOk(fs) && gs.files == fs.files && forall f :: f in fs.files ==> f !in gs.dirs
    requires forall d, n, i :: Names(gs.dirs, d, n, i, FT_REGULAR) <==> Names(fs.dirs, d, n, i, FT_REGULAR)
    ensures FilesOk(gs)
  {
    hide Names;
    forall f | f in gs.files ensures exists d, n :: Names(gs.dirs, d, n, f, FT_REGULAR) {
      var d, n :| Names(fs.dirs, d, n, f, FT_REGULAR);
      assert Names(gs.dirs, d, n, f, FT_REGULAR);
    }
  }

  /** An entry that goes on naming a directory below the same parent. */
  lemma StillEntered(t: Tree, u: Tree, d: nat)
    requires d in t && d in u && HasEntry(t, d) && t[d][DotDot()].0 in u
    requires DotDot() in u[d] && u[d][DotDot()] == t[d][DotDot()]
    requires forall n :: Names(t, t[d][DotDot()].0, n, d, FT_DIRECTORY) ==>
      Names(u, t[d][DotDot()].0, n, d, FT_DIRECTORY)
    ensures HasEntry(u, d)
  {
    hide Names, DotDot;
    var n :| Names(t, t[d][DotDot()].0, n, d, FT_DIRECTORY);
    assert Names(u, t[d][DotDot()].0, n, d, FT_DIRECTORY);
  }

  lemma AddDirRooted(fs: Fs, parent: word, n: Name, ino: word)
    requires CanBind(fs, parent, n, ino)
    ensures Rooted(AddDir(fs, parent, n, ino).dirs)
  {
    hide TreeOk, FilesOk, NameOk, Dot, DotDot;
    var t, u := fs.dirs, AddDir(fs, parent, n, ino).dirs;
    DotsApart();
    TreeAt(t, parent);
    forall d | d in u && d != 0 ensures HasEntry(u, d) {
      if d == ino {
        assert Names(u, parent, n, ino, FT_DIRECTORY);
      } else {
        StillEntered(t, u, d);
      }
    }
  }

  lemma AddDirFiles(fs: Fs, parent: word, n: Name, ino: word)
    requires CanBind(fs, parent, n, ino)
    ensures FilesOk(AddDir(fs, parent, n, ino))
  {
    hide TreeOk, Rooted, NameOk, Dot, DotDot, FilesOk;
    DotsApart();
    var gs := AddDir(fs, parent, n, ino);
    forall f | f in fs.files ensures f !in gs.dirs { NotDirectory(fs, f); }
    FreshNotRegular(ino, parent);
    SameFileNames(fs, gs);
  }

  lemma NotDirectory(fs: Fs, f: nat)
    requires FilesOk(fs) && f in fs.files
    ensures f !in fs.dirs
  {
  }

  lemma FreshNotRegular(self: word, parent: word)
    ensures forall n :: n in FreshDir(self, parent) ==> FreshDir(self, parent)[n].1 == FT_DIRECTORY
  {
  }

  lemma AddDirOk(fs: Fs, parent: word, n: Name, ino: word)
    requires CanBind(fs, parent, n, ino)
    ensures FsOk(AddDir(fs, parent, n, ino))
  {
    hide TreeOk, Rooted, FilesOk, NameOk;
    AddDirTree(fs, parent, n, ino);
    AddDirRooted(fs, parent, n, ino);
    AddDirFiles(fs, parent, n, ino);
  }

  lemma DropDirRooted(fs: Fs, parent: nat, n: Name, ino: nat)
    requires LeafDir(fs, parent, n, ino)
    ensures Rooted(DropDir(fs, parent, n, ino).dirs)
  {
    hide TreeOk, FilesOk, NameOk, Dot, DotDot, OnlyDotNames;
    var t, u := fs.dirs, DropDir(fs, parent, n, ino).dirs;
    DotsApart();
    forall d | d in u && d != 0 ensures HasEntry(u, d) {
      LeafChildless(fs, parent, n, ino, d);
      assert HasEntry(t, d);
      StillEntered(t, u, d);
    }
  }

  lemma DropDirFiles(fs: Fs, parent: nat, n: Name, ino: nat)
    requires LeafDir(fs, parent, n, ino)
    ensures FilesOk(DropDir(fs, parent, n, ino))
  {
    hide TreeOk, Rooted, NameOk, Dot, DotDot, FilesOk;
    LeafPlace(fs, parent, n, ino);
    var gs := DropDir(fs, parent, n, ino);
    forall f | f in fs.files ensures f !in gs.dirs { NotDirectory(fs, f); }
    SameFileNames(fs, gs);
  }

  lemma DropDirOk(fs: Fs, parent: nat, n: Name, ino: nat)
    requires LeafDir(fs, parent, n, ino)
    ensures FsOk(DropDir(fs, parent, n, ino))
  {
    hide TreeOk, Rooted, FilesOk;
    DropDirTree(fs, parent, n, ino);
    DropDirRooted(fs, parent, n, ino);
    DropDirFiles(fs, parent, n, ino);
  }

  /** Changes that touch no entry of a directory. */
  lemma SameDirNames(t: Tree, u: Tree)
    requires Rooted(t) && forall d :: d in u <==> d in t
    requires forall d :: d in t && DotDot() in t[d] ==> DotDot() in u[d] && u[d][DotDot()] == t[d][DotDot()]
    requires forall d, n, i :: Names(t, d, n, i, FT_DIRECTORY) ==> Names(u, d, n, i, FT_DIRECTORY)
    ensures Rooted(u)
  {
    hide Names, DotDot;
    forall d | d in u && d != 0 ensures HasEntry(u, d) {
      assert HasEntry(t, d);
      StillEntered(t, u, d);
    }
  }

  lemma AddFileRooted(fs: Fs, parent: nat, n: Name, ino: word)
    requires CanBind(fs, parent, n, ino)
    ensures Rooted(AddFile(fs, parent, n, ino).dirs)
  {
    hide TreeOk, FilesOk, Rooted, NameOk, Dot, DotDot;
    DotsApart();
    SameDirNames(fs.dirs, AddFile(fs, parent, n, ino).dirs);
  }

  lemma AddFileFiles(fs: Fs, parent: nat, n: Name, ino: word)
    requires CanBind(fs, parent, n, ino)
    ensures FilesOk(AddFile(fs, parent, n, ino))
  {
    hide TreeOk, Rooted, NameOk, Dot, DotDot;
    var gs := AddFile(fs, parent, n, ino);
    AddFileNames(fs, parent, n, ino);
    NewNumberUnnamed(fs, ino);
    hide Names, AddFile;
    forall f | f in gs.files ensures f !in gs.dirs && exists d, m :: Names(gs.dirs, d, m, f, FT_REGULAR) {
      if f == ino {
        assert Names(gs.dirs, parent, n, f, FT_REGULAR);
      } else {
        var d, m :| Names(fs.dirs, d, m, f, FT_REGULAR);
        assert Names(gs.dirs, d, m, f, FT_REGULAR);
      }
    }
  }

  lemma AddFileNames(fs: Fs, parent: nat, n: Name, ino: word)
    requires parent in fs.dirs && n !in fs.dirs[parent] && Plain(n)
    ensures var gs := AddFile(fs, parent, n, ino);
      && (forall d, m, i :: Names(gs.dirs, d, m, i, FT_REGULAR) <==>
            Names(fs.dirs, d, m, i, FT_REGULAR) || (d == parent && m == n && i == ino))
      && (forall f :: f in gs.files <==> f in fs.files || f == ino) && (forall d :: d in gs.dirs <==> d in fs.dirs)
  {
    hide Plain;
  }

  lemma NewNumberUnnamed(fs: Fs, ino: nat)
    requires FilesOk(fs) && ino !in fs.files
    ensures forall d, n :: !Names(fs.dirs, d, n, ino, FT_REGULAR)
  {
    hide Names;
  }

  lemma AddFileOk(fs: Fs, parent: nat, n: Name, ino: word)
    requires CanBind(fs, parent, n, ino)
    ensures FsOk(AddFile(fs, parent, n, ino))
  {
    hide TreeOk, Rooted, FilesOk, NameOk;
    AddFileTree(fs, parent, n, ino);
    AddFileRooted(fs, parent, n, ino);
    AddFileFiles(fs, parent, n, ino);
  }

  lemma DropFileNames(fs: Fs, parent: nat, n: Name, ino: nat)
    requires Names(fs.dirs, parent, n, ino, FT_REGULAR)
    ensures var gs := DropFile(fs, parent, n, ino);
      && (forall d, m, i :: Names(gs.dirs, d, m, i, FT_REGULAR) <==>
            Names(fs.dirs, d, m, i, FT_REGULAR) && !(d == parent && m == n))
      && (forall d, m, i :: Names(fs.dirs, d, m, i, FT_DIRECTORY) ==> Names(gs.dirs, d, m, i, FT_DIRECTORY))
      && (forall f :: f in gs.files <==> f in fs.files && f != ino) && (forall d :: d in gs.dirs <==> d in fs.dirs)
  {
    hide Plain;
  }

  lemma DropFileFiles(fs: Fs, parent: nat, n: Name, ino: nat)
    requires FilesOk(fs) && Names(fs.dirs, parent, n, ino, FT_REGULAR)
    ensures FilesOk(DropFile(fs, parent, n, ino)) && ino in fs.files
  {
    DropFileNames(fs, parent, n, ino);
    hide Names, DropFile;
    var gs := DropFile(fs, parent, n, ino);
    forall f | f in gs.files ensures f !in gs.dirs && exists d, m :: Names(gs.dirs, d, m, f, FT_REGULAR) {
      var d, m :| Names(fs.dirs, d, m, f, FT_REGULAR);
      assert Names(gs.dirs, d, m, f, FT_REGULAR);
    }
  }

  lemma DropFileOk(fs: Fs, parent: nat, n: Name, ino: nat)
    requires FsOk(fs) && Names(fs.dirs, parent, n, ino, FT_REGULAR)
    ensures FsOk(DropFile(fs, parent, n, ino)) && ino in fs.files
  {
    hide TreeOk, Rooted, FilesOk, NameOk, Dot, DotDot;
    DropFileTree(fs, parent, n, ino);
    DropFileFiles(fs, parent, n, ino);
    DropFileNames(fs, parent, n, ino);
    DotsApart();
    SameDirNames(fs.dirs, DropFile(fs, parent, n, ino).dirs);
  }

  lemma AppendOk(fs: Fs, ino: nat, buf: seq<byte>)
    requires FsOk(fs) && ino in fs.files
    ensures FsOk(Append(fs, ino, buf))
  {
    hide TreeOk, Rooted, Names;
    assert forall f :: f in Append(fs, ino, buf).files <==> f in fs.files;
  }
}

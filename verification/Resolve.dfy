/**
 Resolving paths on a volume: search_file walks directory entries, wash_path rewrites the path
 first, and getcwd climbs back up. All three agree.
 */
module Resolve {
  import opened Common
  import opened Volume
  import opened DirCells
  import opened Directory
  import opened DirSession
  import opened DirTree
  import opened Paths

  /** Every directory of a volume as a dictionary, by inode number. */
  type Tree = map<nat, Dict>

  ghost predicate TreeOk(t: Tree) {
    && 0 in t
    && (forall d :: d in t ==> Dot() in t[d] && t[d][Dot()] == (d, FT_DIRECTORY))
    && (forall d :: d in t ==> DotDot() in t[d] && t[d][DotDot()].1 == FT_DIRECTORY && t[d][DotDot()].0 in t)
    && t[0][DotDot()].0 == 0
    && (forall d, n :: d in t && n in t[d] && Plain(n) ==> EntryOk(t, d, n))
    && (forall d, n, m :: d in t && n in t[d] && m in t[d] && Plain(n) && Plain(m) && t[d][n].0 == t[d][m].0 ==> n == m)
  }

  /** A plain entry is a file outside the tree or a directory that names this one as its parent. */
  ghost predicate EntryOk(t: Tree, d: nat, n: Name)
    requires d in t && n in t[d]
  {
    && NameOk(n)
    && var (i, kind) := t[d][n];
    && (kind == FT_DIRECTORY || kind == FT_REGULAR)
    && (kind == FT_DIRECTORY ==> i in t && i != 0 && DotDot() in t[i] && t[i][DotDot()].0 == d)
    && (kind == FT_REGULAR ==> i !in t)
  }

  ghost predicate OnDisk(v: Vol, t: Tree) {
    forall d :: d in t ==> DirAt(v, d) && Entries(CellsOf(v, d)) == t[d]
  }

  // ---------------------------------------------------------------- walking

  /** Following entries from a directory; every component but the last must be a directory. */
  function Walk(t: Tree, d: nat, ns: seq<Name>): Maybe<nat>
    decreases |ns|
  {
    if ns == [] then Just(d)
    else if d in t && ns[0] in t[d] then Walk(t, t[d][ns[0]].0, ns[1..])
    else Nothing
  }

  lemma {:induction false} WalkSplit(t: Tree, d: nat, a: seq<Name>, b: seq<Name>)
    ensures Walk(t, d, a + b) == match Walk(t, d, a) case Nothing => Nothing case Just(e) => Walk(t, e, b)
    decreases |a|
  {
    if a == [] {
      assert a + b == b;
    } else {
      assert (a + b)[0] == a[0] && (a + b)[1..] == a[1..] + b;
      if d in t && a[0] in t[d] {
        WalkSplit(t, t[d][a[0]].0, a[1..], b);
      }
    }
  }

  lemma WalkLast(t: Tree, ns: seq<Name>)
    requires ns != []
    ensures var init := Walk(t, 0, ns[..|ns| - 1]); var n := ns[|ns| - 1];
      Walk(t, 0, ns) == if init.Just? && init.value in t && n in t[init.value] then Just(t[init.value][n].0)
        else Nothing
  {
    var init := ns[..|ns| - 1];
    assert ns == init + [ns[|ns| - 1]];
    WalkSplit(t, 0, init, [ns[|ns| - 1]]);
    if Walk(t, 0, init).Just? {
      var e := Walk(t, 0, init).value;
      if e in t && ns[|ns| - 1] in t[e] {
        var last := [ns[|ns| - 1]];
        assert last[1..] == [];
      }
    }
  }

  /** Normalising keeps the meaning: a path that resolves still resolves, to the same inode. */
  lemma {:induction false} NormalizeKeepsMeaning(t: Tree, ns: seq<Name>)
    requires TreeOk(t) && Walk(t, 0, ns).Just?
    ensures Walk(t, 0, Normalize(ns)) == Walk(t, 0, ns)
  {
    hide Walk;
    WalkStart(t);
    if ns != [] {
      var init, n := ns[..|ns| - 1], ns[|ns| - 1];
      WalkLast(t, ns);
      NormalizeKeepsMeaning(t, init);
      NormalizeClean(init);
      var stack := Normalize(init);
      var d := Walk(t, 0, init).value;
      if n == DotDot() {
        if stack != [] {
          WalkLast(t, stack);
          assert Plain(stack[|stack| - 1]);
          assert EntryOk(t, Walk(t, 0, stack[..|stack| - 1]).value, stack[|stack| - 1]);
        }
      } else if n != Dot() {
        WalkLast(t, stack + [n]);
        assert (stack + [n])[..|stack|] == stack;
      }
    }
  }

  lemma WalkStart(t: Tree)
    ensures Walk(t, 0, []) == Just(0)
  {
  }

  /** The washed form of the first k components leads to a directory. */
  ghost predicate PrefixLeads(t: Tree, ns: seq<Name>, k: nat)
    requires k <= |ns|
  {
    var w := Walk(t, 0, Normalize(ns[..k]));
    w.Just? && w.value in t
  }

  /** Where a "." or ".." stands, what comes before it leads to a directory. */
  ghost predicate DotsStand(t: Tree, ns: seq<Name>) {
    forall k :: 0 <= k < |ns| && !Plain(ns[k]) ==> PrefixLeads(t, ns, k)
  }

  /** Every component of a path that resolves stands behind a directory. */
  lemma {:induction false} PrefixesLead(t: Tree, ns: seq<Name>, k: nat)
    requires TreeOk(t) && Walk(t, 0, ns).Just? && k < |ns|
    ensures PrefixLeads(t, ns, k)
    decreases |ns|
  {
    hide Walk, TreeOk, Normalize;
    var init := ns[..|ns| - 1];
    WalkLast(t, ns);
    if k == |init| {
      NormalizeKeepsMeaning(t, init);
    } else {
      PrefixesLead(t, init, k);
      assert init[..k] == ns[..k];
    }
  }

  lemma DotsBefore(t: Tree, ns: seq<Name>)
    requires DotsStand(t, ns) && ns != []
    ensures DotsStand(t, ns[..|ns| - 1])
    ensures Plain(ns[|ns| - 1]) || PrefixLeads(t, ns, |ns| - 1)
  {
    hide Walk, Normalize;
    var init := ns[..|ns| - 1];
    forall k | 0 <= k < |init| && !Plain(init[k]) ensures PrefixLeads(t, init, k) {
      assert init[..k] == ns[..k] && PrefixLeads(t, ns, k);
    }
  }

  lemma {:induction false} DotsResolve(t: Tree, ns: seq<Name>)
    requires TreeOk(t) && Walk(t, 0, Normalize(ns)).Just? && DotsStand(t, ns)
    ensures Walk(t, 0, ns).Just?
  {
    hide Walk, DotsStand;
    WalkStart(t);
    if ns != [] {
      var init, n := ns[..|ns| - 1], ns[|ns| - 1];
      var stack := Normalize(init);
      WalkLast(t, ns);
      DotsBefore(t, ns);
      if Plain(n) {
        WalkLast(t, stack + [n]);
        assert (stack + [n])[..|stack|] == stack;
      }
      DotsResolve(t, init);
      NormalizeKeepsMeaning(t, init);
    }
  }

  /**
   Exactly when washing does not forgive: a path resolves as typed if and only if its washed form does and every
   "." and ".." in it stands behind a directory; or, what is the same, if and only if every prefix washes to a path
   that resolves, to a directory unless it is the whole path.
   */
  lemma ResolvesAsTyped(t: Tree, ns: seq<Name>)
    requires TreeOk(t)
    ensures Walk(t, 0, ns).Just? <==> Walk(t, 0, Normalize(ns)).Just? && DotsStand(t, ns)
    ensures Walk(t, 0, ns).Just? <==>
      Walk(t, 0, Normalize(ns)).Just? && forall k :: 0 <= k < |ns| ==> PrefixLeads(t, ns, k)
  {
    hide Walk, TreeOk, Normalize, PrefixLeads;
    if Walk(t, 0, ns).Just? {
      NormalizeKeepsMeaning(t, ns);
      forall k | 0 <= k < |ns| ensures PrefixLeads(t, ns, k) { PrefixesLead(t, ns, k); }
    }
    if Walk(t, 0, Normalize(ns)).Just? && DotsStand(t, ns) { DotsResolve(t, ns); }
  }

  /** A path that fails: "/x/.." washes to "/" and resolves, though there is no x. */
  lemma NormalizeForgives(t: Tree, x: Name)
    requires TreeOk(t) && Plain(x) && x !in t[0]
    ensures Walk(t, 0, [x, DotDot()]) == Nothing
    ensures Walk(t, 0, Normalize([x, DotDot()])) == Just(0)
  {
    assert [x, DotDot()][..1] == [x] && [x][..0] == [];
    assert Normalize([x]) == [x];
  }

  // ---------------------------------------------------------------- search_file

  /** What search_file reports: the inode and type found, the directory last searched, components consumed. */
  datatype Found = Found(ok: bool, ino: nat, kind: word, parent: nat, depth: nat)

  /** search_file stops at the first regular file, whatever follows it, and at the first missing name. */
  function Scan(t: Tree, parent: nat, d: nat, ns: seq<Name>, depth: nat): Found
    decreases |ns|
  {
    if ns == [] then Found(true, d, FT_DIRECTORY, parent, depth)
    else if d !in t || ns[0] !in t[d] then Found(false, 0, FT_UNKNOWN, d, depth + 1)
    else if t[d][ns[0]].1 == FT_DIRECTORY then Scan(t, d, t[d][ns[0]].0, ns[1..], depth + 1)
    else Found(true, t[d][ns[0]].0, FT_REGULAR, d, depth + 1)
  }

  /**
   A path resolves exactly when search_file finds something after consuming every component,
   which is the comparison of depths its callers make.
   */
  lemma {:induction false} ScanAgrees(t: Tree, parent: nat, d: nat, ns: seq<Name>, depth: nat)
    requires TreeOk(t) && d in t
    ensures var r := Scan(t, parent, d, ns, depth);
      Walk(t, d, ns) == if r.ok && r.depth == depth + |ns| then Just(r.ino) else Nothing
    ensures var r := Scan(t, parent, d, ns, depth); depth <= r.depth <= depth + |ns|
    decreases |ns|
  {
    if ns != [] && ns[0] in t[d] {
      var n := ns[0];
      if t[d][n].1 == FT_DIRECTORY {
        DirEntryInTree(t, d, n);
        ScanAgrees(t, d, t[d][n].0, ns[1..], depth + 1);
      } else {
        assert Plain(n);
        assert EntryOk(t, d, n);
        if |ns| > 1 { assert ns[1..] != []; } else { assert ns[1..] == []; }
      }
    }
  }

  lemma DirEntryInTree(t: Tree, d: nat, n: Name)
    requires TreeOk(t) && d in t && n in t[d] && t[d][n].1 == FT_DIRECTORY
    ensures t[d][n].0 in t
  {
    if Plain(n) { assert EntryOk(t, d, n); }
  }

  /** search_file, with the root for a path of no components. */
  method SearchFile(p: Partition, path: seq<byte>, ghost t: Tree) returns (r: Found)
    requires path != [] && path[0] == SLASH && TreeOk(t) && OnDisk(p.V(), t)
    ensures r == Scan(t, 0, 0, Components(path), 0)
  {
    hide Components, DirOk, Cells, Entries, CellsOf, TreeOk;
    ghost var all := Components(path);
    ComponentsClean(path);
    RootInTree(t);
    var name, rest, nil := PathParse(path);
    var dir, parent, depth := 0, 0, 0;
    while name != []
      invariant 0 <= depth <= |all| && AllClean(all)
      invariant dir in t && Scan(t, 0, 0, all, 0) == Scan(t, parent, dir, all[depth..], depth)
      invariant if depth == |all| then name == [] else name == all[depth] && Components(rest) == all[depth + 1..]
      decreases |all| - depth
    {
      ghost var left := all[depth..];
      assert left[0] == name && left[1..] == all[depth + 1..];
      depth := depth + 1;
      var found, e := SearchDirEntry(p, dir, name);
      if !found {
        return Found(false, 0, FT_UNKNOWN, dir, depth);
      }
      name, rest, nil := PathParse(rest);
      if e.kind == FT_DIRECTORY {
        DirEntryInTree(t, dir, left[0]);
        parent, dir := dir, e.ino;
        CleanAt(all, depth);
      } else {
        return Found(true, e.ino, FT_REGULAR, dir, depth);
      }
    }
    CleanAt(all, depth);
    r := Found(true, dir, FT_DIRECTORY, parent, depth);
  }

  lemma RootInTree(t: Tree)
    requires TreeOk(t)
    ensures 0 in t
  {
  }

  // ---------------------------------------------------------------- getcwd

  /** A path of plain names from the root to a directory. */
  ghost predicate PathTo(t: Tree, ns: seq<Name>, d: nat) {
    d in t && (forall i :: 0 <= i < |ns| ==> Plain(ns[i])) && Walk(t, 0, ns) == Just(d)
  }

  /** The parent a path goes through is the directory its last entry sits in. */
  lemma PathParent(t: Tree, ns: seq<Name>, d: nat) returns (e: nat)
    requires TreeOk(t) && PathTo(t, ns, d) && ns != []
    ensures d != 0 && d in t && e in t && DotDot() in t[d]
    ensures PathTo(t, ns[..|ns| - 1], e) && t[d][DotDot()].0 == e
    ensures ns[|ns| - 1] in t[e] && t[e][ns[|ns| - 1]] == (d, FT_DIRECTORY)
  {
    hide Walk;
    WalkLast(t, ns);
    e := Walk(t, 0, ns[..|ns| - 1]).value;
    assert EntryOk(t, e, ns[|ns| - 1]);
  }

  lemma SameName(t: Tree, d: nat, n: Name, m: Name)
    requires TreeOk(t) && d in t && n in t[d] && m in t[d] && Plain(n) && Plain(m) && t[d][n].0 == t[d][m].0
    ensures n == m
  {
  }

  /** A directory is reached by one path of plain names only. */
  lemma {:induction false} PathUnique(t: Tree, a: seq<Name>, b: seq<Name>, d: nat)
    requires TreeOk(t) && PathTo(t, a, d) && PathTo(t, b, d)
    ensures a == b
    decreases |a|
  {
    hide TreeOk, Walk;
    WalkStart(t);
    if a == [] {
      if b != [] { var e := PathParent(t, b, d); }
    } else if b == [] {
      var e := PathParent(t, a, d);
    } else {
      var e := PathParent(t, a, d);
      var f := PathParent(t, b, d);
      PathUnique(t, a[..|a| - 1], b[..|b| - 1], e);
      SameName(t, e, a[|a| - 1], b[|b| - 1]);
      assert a == a[..|a| - 1] + [a[|a| - 1]] && b == b[..|b| - 1] + [b[|b| - 1]];
    }
  }

  /** A directory is neither its own parent nor its own grandparent, the root apart. */
  lemma NoLoop(t: Tree, ns: seq<Name>, d: nat, e: nat)
    requires TreeOk(t) && PathTo(t, ns, d) && ns != [] && PathTo(t, ns[..|ns| - 1], e)
    ensures e != d && t[e][DotDot()].0 != d
  {
    var init := ns[..|ns| - 1];
    if e == d { PathUnique(t, ns, init, d); }
    if init == [] {
      assert Walk(t, 0, init) == Just(0);
      var f := PathParent(t, ns, d);
    } else {
      var g := PathParent(t, init, e);
      if g == d { PathUnique(t, ns, init[..|init| - 1], d); }
    }
  }

  /** The entry of a name sits in the directory's first block. */
  ghost predicate InFirstBlock(c: seq<Slot>, name: Name)
    requires |c| == CELLS
  {
    exists k :: 0 <= k < PER_SECTOR && Live(c[k]) && c[k].name == name
  }

  ghost predicate Placed(v: Vol, t: Tree, ns: seq<Name>, i: nat)
    requires i < |ns|
  {
    var w := Walk(t, 0, ns[..i]);
    w.Just? && w.value in v.inodes && InFirstBlock(CellsOf(v, w.value), ns[i])
  }

  /** Every step of a path is stored in the first block of its directory. */
  ghost predicate Shallow(v: Vol, t: Tree, ns: seq<Name>) {
    forall i :: 0 <= i < |ns| ==> Placed(v, t, ns, i)
  }

  /** The inode number in the ".." entry of a directory. */
  method GetParentDirInode(p: Partition, child: nat) returns (r: word)
    requires DirAt(p.V(), child)
    ensures DotDot() in Entries(CellsOf(p.V(), child)) && r == Entries(CellsOf(p.V(), child))[DotDot()].0
  {
    hide Entries, Cells, SlotAt;
    var nd := p.inodes[child];
    CellOf(nd, p.disk, 0, 1);
    EntryAt(CellsOf(p.V(), child), 1);
    r := SlotAt(Read(p.disk, nd.sectors[0]), 1).ino;
  }

  ghost predicate NamedInFirst(c: seq<Slot>, child: nat, name: Name)
    requires |c| == CELLS
  {
    exists k :: 0 <= k < PER_SECTOR && c[k].ino == child && c[k].name == name
  }

  /**
   Looks for a child's name among the entries of its parent. The slot index is not reset between
   blocks, so only the entries of the first block are ever looked at.
   */
  method GetChildDirName(p: Partition, parent: nat, child: nat) returns (ok: bool, name: Name)
    requires DirAt(p.V(), parent)
    ensures var c := CellsOf(p.V(), parent);
      ok <==> exists k :: 0 <= k < PER_SECTOR && c[k].ino == child
    ensures ok ==> NamedInFirst(CellsOf(p.V(), parent), child, name)
  {
    hide Entries, Cells, SlotAt, LiveCount, CellsOk;
    var nd := p.inodes[parent];
    ghost var c := CellsOf(p.V(), parent);
    var all: seq<word> := nd.sectors[..12];
    var b, j := 0, 0;
    while b < 12
      invariant 0 <= b <= 12 && 0 <= j <= PER_SECTOR && (b == 0 ==> j == 0) && (b > 0 ==> j == PER_SECTOR)
      invariant forall k :: 0 <= k < j ==> c[k].ino != child
    {
      if all[b] != 0 {
        var s := Read(p.disk, all[b]);
        while j < PER_SECTOR
          invariant 0 <= j <= PER_SECTOR && (b > 0 ==> j == PER_SECTOR)
          invariant forall k :: 0 <= k < j ==> c[k].ino != child
        {
          CellOf(nd, p.disk, b, j);
          if SlotAt(s, j).ino == child {
            return true, SlotAt(s, j).name;
          }
          j := j + 1;
        }
      }
      b := b + 1;
    }
    return false, [];
  }

  /** In the parent of a non-root directory only the entry of its name carries its inode number. */
  lemma ChildNamed(c: seq<Slot>, m: Dict, d: nat, e: nat, n: Name, k: nat)
    requires CellsOk(c) && Entries(c) == m && k < CELLS && d != 0 && d != e
    requires Dot() in m && m[Dot()].0 == e && DotDot() in m && m[DotDot()].0 != d
    requires Plain(n) && n in m && m[n].0 == d
    requires forall a, b :: a in m && b in m && Plain(a) && Plain(b) && m[a].0 == m[b].0 ==> a == b
    ensures c[k].ino == d <==> Live(c[k]) && c[k].name == n
  {
    hide Entries, LiveCount;
    if Live(c[k]) {
      EntryAt(c, k);
      assert c[k].name in m;
    } else {
      assert c[k] == Free();
    }
  }

  lemma RootPath(t: Tree, ns: seq<Name>, d: nat)
    requires TreeOk(t) && PathTo(t, ns, d)
    ensures d == 0 <==> ns == []
  {
    if ns != [] { var e := PathParent(t, ns, d); }
  }

  lemma OnDiskAt(v: Vol, t: Tree, d: nat)
    requires OnDisk(v, t) && d in t
    ensures DirAt(v, d) && Entries(CellsOf(v, d)) == t[d]
  {
  }

  lemma {:induction false} PathClean(t: Tree, ns: seq<Name>, d: nat)
    requires TreeOk(t) && PathTo(t, ns, d)
    ensures AllClean(ns)
  {
    if ns != [] {
      var e := PathParent(t, ns, d);
      PathClean(t, ns[..|ns| - 1], e);
      assert EntryOk(t, e, ns[|ns| - 1]);
      assert ns == ns[..|ns| - 1] + [ns[|ns| - 1]];
    }
  }

  lemma UpwardStep(collected: seq<byte>, ns: seq<Name>)
    requires ns != []
    ensures collected + Upward(ns) == collected + ([SLASH] + ns[|ns| - 1]) + Upward(ns[..|ns| - 1])
  {
    var a, b := [SLASH] + ns[|ns| - 1], Upward(ns[..|ns| - 1]);
    assert Upward(ns) == a + b;
    Associate(collected, a, b);
  }

  lemma Associate(a: seq<byte>, b: seq<byte>, c: seq<byte>)
    ensures a + (b + c) == a + b + c
  {
  }

  lemma UpwardEnd(ns: seq<Name>, collected: seq<byte>)
    ensures [] + Upward(ns) == Upward(ns) && collected + Upward([]) == collected
  {
  }

  /** One step up finds the name of the path exactly when the entry is in the first block. */
  lemma StepNamed(v: Vol, t: Tree, ns: seq<Name>, i: nat, d: nat, e: nat, found: bool, name: Name)
    requires TreeOk(t) && OnDisk(v, t) && i < |ns| && PathTo(t, ns[..i + 1], d) && PathTo(t, ns[..i], e)
    requires e != d && t[e][DotDot()].0 != d && d != 0 && ns[i] in t[e] && t[e][ns[i]].0 == d
    requires var c := CellsOf(v, e); found <==> exists k :: 0 <= k < PER_SECTOR && c[k].ino == d
    requires found ==> NamedInFirst(CellsOf(v, e), d, name)
    ensures found <==> Placed(v, t, ns, i)
    ensures found ==> name == ns[i]
  {
    hide Entries, Cells, LiveCount, DirOk, Walk, CellsOk;
    OnDiskAt(v, t, e);
    DirFacts(v.inodes[e], v.disk);
    var c := CellsOf(v, e);
    assert ns[..i + 1][i] == ns[i];
    assert Plain(ns[i]);
    forall k | 0 <= k < PER_SECTOR ensures c[k].ino == d <==> Live(c[k]) && c[k].name == ns[i] {
      ChildNamed(c, t[e], d, e, ns[i], k);
    }
  }

  /**
   The working directory as a path. For a directory reached by ns the result is exactly "/c1/.../cn"
   if every component is in the first block of its directory, and a failure otherwise.
   */
  method GetCwd(p: Partition, cwd: nat, ghost t: Tree, ghost ns: seq<Name>) returns (ok: bool, path: seq<byte>)
    requires TreeOk(t) && OnDisk(p.V(), t) && PathTo(t, ns, cwd)
    ensures ok <==> Shallow(p.V(), t, ns)
    ensures ok ==> path == Render(ns)
  {
    hide DirOk, Cells, Entries, CellsOf, TreeOk, Walk, Slashed, Upward, PathTo;
    RootPath(t, ns, cwd);
    if cwd == 0 {
      return true, [SLASH];
    }
    var child: nat := cwd;
    var collected: seq<byte> := [];
    ghost var done := 0;
    assert ns[..|ns|] == ns;
    UpwardEnd(ns, []);
    while child != 0
      invariant 0 <= done <= |ns| && PathTo(t, ns[..|ns| - done], child) && (child == 0 <==> done == |ns|)
      invariant collected + Upward(ns[..|ns| - done]) == Upward(ns)
      invariant forall i :: |ns| - done <= i < |ns| ==> Placed(p.V(), t, ns, i)
      decreases |ns| - done
    {
      ghost var cur := ns[..|ns| - done];
      ghost var e := PathParent(t, cur, child);
      NoLoop(t, cur, child, e);
      assert cur[..|cur| - 1] == ns[..|ns| - done - 1];
      OnDiskAt(p.V(), t, child);
      OnDiskAt(p.V(), t, e);
      var parent := GetParentDirInode(p, child);
      var found, name := GetChildDirName(p, parent, child);
      StepNamed(p.V(), t, ns, |ns| - done - 1, child, e, found, name);
      if !found {
        ok, path := false, [];
        return;
      }
      UpwardStep(collected, cur);
      assert name == cur[|cur| - 1];
      collected := collected + ([SLASH] + name);
      child := parent;
      done := done + 1;
      RootPath(t, ns[..|ns| - done], child);
    }
    assert ns[..0] == [];
    UpwardEnd(ns, collected);
    PathClean(t, ns, cwd);
    path := ReversePath(collected, ns);
    ok := true;
  }

  /** The entry of component i of a path is in cell k of its directory. */
  ghost predicate StoredAt(v: Vol, t: Tree, ns: seq<Name>, i: int, k: int) {
    && 0 <= i < |ns| && 0 <= k < CELLS
    && var w := Walk(t, 0, ns[..i]);
       w.Just? && w.value in v.inodes && Live(CellsOf(v, w.value)[k]) && CellsOf(v, w.value)[k].name == ns[i]
  }

  /** In one directory a name is in the first block or in a later cell, never both. */
  lemma OneCell(c: seq<Slot>, name: Name)
    requires CellsOk(c) && name in Entries(c)
    ensures InFirstBlock(c, name) <==> !exists k :: PER_SECTOR <= k < CELLS && Live(c[k]) && c[k].name == name
  {
    hide Entries, LiveCount;
    EntriesKeys(c, name);
    var k :| 0 <= k < CELLS && Live(c[k]) && c[k].name == name;
    assert k < PER_SECTOR <==> InFirstBlock(c, name);
  }

  /** Exactly when getcwd fails: some component's entry is in cell 21 or later of its directory. */
  lemma CwdFails(v: Vol, t: Tree, ns: seq<Name>, d: nat)
    requires TreeOk(t) && OnDisk(v, t) && PathTo(t, ns, d)
    ensures !Shallow(v, t, ns) <==> exists i, k :: StoredAt(v, t, ns, i, k) && PER_SECTOR <= k
  {
    hide Entries, Walk, CellsOf, TreeOk, OnDisk;
    forall i | 0 <= i < |ns| ensures Placed(v, t, ns, i) <==> !exists k :: StoredAt(v, t, ns, i, k) && PER_SECTOR <= k {
      PlacedExact(v, t, ns, d, i);
    }
    if i, k :| StoredAt(v, t, ns, i, k) && PER_SECTOR <= k {
      assert 0 <= i < |ns| && !Placed(v, t, ns, i);
    }
    if !Shallow(v, t, ns) {
      var i :| 0 <= i < |ns| && !Placed(v, t, ns, i);
      var k :| StoredAt(v, t, ns, i, k) && PER_SECTOR <= k;
    }
  }

  lemma PlacedExact(v: Vol, t: Tree, ns: seq<Name>, d: nat, i: nat)
    requires TreeOk(t) && OnDisk(v, t) && PathTo(t, ns, d) && i < |ns|
    ensures Placed(v, t, ns, i) <==> !exists k :: StoredAt(v, t, ns, i, k) && PER_SECTOR <= k
  {
    hide Entries, Walk, Cells, LiveCount, CellsOk;
    PathStep(t, ns, d, i);
    var e := Walk(t, 0, ns[..i]).value;
    OnDiskAt(v, t, e);
    DirFacts(v.inodes[e], v.disk);
    OneCell(CellsOf(v, e), ns[i]);
    if k :| PER_SECTOR <= k < CELLS && Live(CellsOf(v, e)[k]) && CellsOf(v, e)[k].name == ns[i] {
      assert StoredAt(v, t, ns, i, k);
    }
  }

  lemma {:induction false} PathStep(t: Tree, ns: seq<Name>, d: nat, i: nat)
    requires TreeOk(t) && PathTo(t, ns, d) && i < |ns|
    ensures var w := Walk(t, 0, ns[..i]); w.Just? && w.value in t && ns[i] in t[w.value]
    decreases |ns|
  {
    hide TreeOk, Walk;
    var e := PathParent(t, ns, d);
    if i < |ns| - 1 {
      PathStep(t, ns[..|ns| - 1], e, i);
      assert ns[..|ns| - 1][..i] == ns[..i];
    }
  }

  /** A root with twenty directories "a" to "t": the last one starts the second block. */
  function Crowded(): (c: seq<Slot>)
    ensures |c| == CELLS
  {
    [DotEntry(0), DotDotEntry(0)] + seq(20, i requires 0 <= i < 20 => Slot([97 + i], 1 + i, FT_DIRECTORY))
    + seq(CELLS - 22, _ => Free())
  }

  lemma CrowdedAt(k: nat)
    requires k < CELLS
    ensures k >= 22 ==> Crowded()[k] == Free()
    ensures 2 <= k < 22 ==> Crowded()[k] == Slot([95 + k], k - 1, FT_DIRECTORY)
    ensures k == 0 ==> Crowded()[k] == DotEntry(0)
    ensures k == 1 ==> Crowded()[k] == DotDotEntry(0)
  {
  }

  lemma CrowdedOk()
    ensures CellsOk(Crowded())
  {
    hide Crowded, Free;
    var c := Crowded();
    forall k | 0 <= k < CELLS
      ensures k >= 22 ==> c[k] == Free()
      ensures 2 <= k < 22 ==> c[k] == Slot([95 + k], k - 1, FT_DIRECTORY)
    {
      CrowdedAt(k);
    }
    CrowdedAt(0);
    CrowdedAt(1);
    FreeIsNotLive();
  }

  lemma FreeIsNotLive()
    ensures !Live(Free())
  {
  }

  /** An input that fails: with that root on disk, the path of the directory "t" is lost to getcwd. */
  lemma CrowdedCwd(v: Vol, t: Tree)
    requires TreeOk(t) && OnDisk(v, t) && CellsOf(v, 0) == Crowded()
    ensures PathTo(t, [[116]], 20) && !Shallow(v, t, [[116]])
  {
    hide Entries, Cells, CellsOf, Crowded, LiveCount, CellsOk;
    var n: Name := [116];
    CrowdedOk();
    CrowdedAt(21);
    OnDiskAt(v, t, 0);
    DistinctIn(Crowded());
    EntryAt(Crowded(), 21);
    assert t[0][n] == (20, FT_DIRECTORY);
    DirEntryInTree(t, 0, n);
    assert [n][1..] == [] && [n][..0] == [];
    assert Walk(t, 0, [n]) == Just(20);
    assert StoredAt(v, t, [n], 0, 21);
    CwdFails(v, t, [n], 20);
  }

  lemma DistinctIn(c: seq<Slot>)
    requires CellsOk(c)
    ensures DistinctNames(c)
  {
  }

  // ---------------------------------------------------------------- cd, then pwd

  /** sys_chdir: the working directory moves only to a directory. */
  method ChDir(p: Partition, path: seq<byte>, cwd: nat, ghost t: Tree) returns (ok: bool, now: nat)
    requires path != [] && path[0] == SLASH && TreeOk(t) && OnDisk(p.V(), t)
    ensures var w := Walk(t, 0, Components(path)); ok <==> w.Just? && w.value in t
    ensures now == if ok then Walk(t, 0, Components(path)).value else cwd
  {
    hide Components, Walk, OnDisk;
    var r := SearchFile(p, path, t);
    ScanAgrees(t, 0, 0, Components(path), 0);
    ScanDirectory(t, 0, 0, Components(path), 0);
    ok := r.ok && r.kind == FT_DIRECTORY;
    now := if ok then r.ino else cwd;
  }

  /** search_file says "directory" exactly when the whole path was walked and ends in one. */
  lemma {:induction false} ScanDirectory(t: Tree, parent: nat, d: nat, ns: seq<Name>, depth: nat)
    requires TreeOk(t) && d in t
    ensures var r := Scan(t, parent, d, ns, depth);
      r.ok && r.kind == FT_DIRECTORY <==> r.ok && r.depth == depth + |ns| && r.ino in t
    decreases |ns|
  {
    if ns != [] && ns[0] in t[d] {
      if t[d][ns[0]].1 == FT_DIRECTORY {
        DirEntryInTree(t, d, ns[0]);
        ScanDirectory(t, d, t[d][ns[0]].0, ns[1..], depth + 1);
      } else {
        assert Plain(ns[0]);
        assert EntryOk(t, d, ns[0]);
      }
    }
  }

  /** Stopped is the failed assertion of wash_path; no text from pwd is its failure message. */
  datatype CdResult = Stopped | NoDirectory | Moved(now: nat, pwd: Maybe<seq<byte>>)

  predicate Absolute(path: seq<byte>) { path != [] && path[0] == SLASH }

  /** The components that a typed path stands for, below a working directory reached by cs. */
  function Typed(path: seq<byte>, cs: seq<Name>): seq<Name> {
    (if Absolute(path) then [] else cs) + Components(path)
  }

  /**
   "cd path" in the shell and then "pwd", for absolute and relative paths. It stops if the path is relative and getcwd
   fails; else it moves exactly when the washed path leads to a directory. A path that resolves as typed, from the root
   or from the working directory, leads to the same one. Then pwd prints exactly the washed path unless an entry of it
   lies past a first block.
   */
  method CdPwd(p: Partition, path: seq<byte>, cwd: nat, ghost t: Tree, ghost cs: seq<Name>) returns (r: CdResult)
    requires TreeOk(t) && OnDisk(p.V(), t) && PathTo(t, cs, cwd)
    ensures r.Stopped? <==> !Absolute(path) && !Shallow(p.V(), t, cs)
    ensures var w := Walk(t, 0, Normalize(Typed(path, cs)));
      !r.Stopped? ==> (r.Moved? <==> w.Just? && w.value in t) && (r.Moved? ==> r.now == w.value)
    ensures r.Moved? ==> (r.pwd.Just? <==> Shallow(p.V(), t, Normalize(Typed(path, cs))))
    ensures r.Moved? && r.pwd.Just? ==> r.pwd.value == Render(Normalize(Typed(path, cs)))
    ensures var u := Walk(t, if Absolute(path) then 0 else cwd, Components(path));
      u.Just? && u.value in t && !r.Stopped? ==> r.Moved? && r.now == u.value
  {
    hide Components, Walk, OnDisk, TreeOk, Normalize, Render, Shallow, PathTo;
    ghost var ns := Normalize(Typed(path, cs));
    var abs: seq<byte> := [SLASH];
    RootOpens();
    CwdComponents(t, cs, cwd);
    if !Absolute(path) {
      var ok, text := GetCwd(p, cwd, t, cs);
      if !ok { return Stopped; }
      abs := text;
    }
    TypedWalk(t, path, cwd, cs);
    var final := MakeClearAbsPath(path, abs);
    assert final == Render(ns);
    FinalPath(Typed(path, cs), path, cs);
    var ok, now := ChDir(p, final, cwd, t);
    if !ok { return NoDirectory; }
    NormalPath(t, ns, now, Typed(path, cs));
    var found, text := GetCwd(p, now, t, ns);
    r := Moved(now, if found then Just(text) else Nothing);
  }

  lemma RootOpens()
    ensures Components([SLASH]) == [] && Render([]) == [SLASH]
  {
    ParseNothing();
    NormalizeNone();
  }

  lemma CwdComponents(t: Tree, cs: seq<Name>, cwd: nat)
    requires TreeOk(t) && PathTo(t, cs, cwd)
    ensures AllClean(cs) && Components(Render(cs)) == cs && Render(cs) != [] && Render(cs)[0] == SLASH
  {
    PathClean(t, cs, cwd);
    RenderParse(cs);
    SlashedOpens(cs);
  }

  lemma TypedWalk(t: Tree, path: seq<byte>, cwd: nat, cs: seq<Name>)
    requires TreeOk(t) && PathTo(t, cs, cwd)
    ensures Walk(t, 0, Typed(path, cs)) == Walk(t, if Absolute(path) then 0 else cwd, Components(path))
    ensures Walk(t, 0, Typed(path, cs)).Just? ==> Walk(t, 0, Normalize(Typed(path, cs))) == Walk(t, 0, Typed(path, cs))
  {
    hide Walk, Components, TreeOk, Normalize;
    if Absolute(path) {
      assert [] + Components(path) == Components(path);
    } else {
      WalkSplit(t, 0, cs, Components(path));
    }
    if Walk(t, 0, Typed(path, cs)).Just? { NormalizeKeepsMeaning(t, Typed(path, cs)); }
  }

  lemma FinalPath(typed: seq<Name>, path: seq<byte>, cs: seq<Name>)
    requires typed == Typed(path, cs) && AllClean(cs)
    ensures var final := Render(Normalize(typed));
      final != [] && final[0] == SLASH && Components(final) == Normalize(typed)
  {
    hide Components, Normalize, Render;
    ComponentsClean(path);
    assert AllClean(typed);
    StillClean(typed);
    RenderParse(Normalize(typed));
    SlashedOpens(Normalize(typed));
  }

  lemma NormalPath(t: Tree, ns: seq<Name>, d: nat, typed: seq<Name>)
    requires ns == Normalize(typed) && Walk(t, 0, ns) == Just(d) && d in t
    ensures PathTo(t, ns, d)
  {
    hide Walk, Normalize;
    NormalizeClean(typed);
  }

  lemma {:induction false} SlashedOpens(ns: seq<Name>)
    ensures Render(ns) != [] && Render(ns)[0] == SLASH
  {
    if |ns| == 1 {
      assert Slashed(ns[..0]) == [];
    } else if |ns| > 1 {
      SlashedOpens(ns[..|ns| - 1]);
    }
  }
}

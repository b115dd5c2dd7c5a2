/**
 File descriptors: the eight local entries of each process, the 32 slots of the global table, and the count
 that a pipe keeps in its slot. The law is about local descriptors from 3 up.
 */
module Descriptors {

  const LOCALS: nat := 8
  const SLOTS: nat := 32
  const NONE: int := -1

  /** A slot is in use while fd_inode is not null; `pipe` stands for its flag, `pos` for fd_pos. */
  datatype File = File(used: bool, pipe: bool, pos: nat)

  /** The global table, and the descriptor table of every live process. */
  datatype State = State(files: seq<File>, procs: seq<seq<int>>)

  predicate WellFormed(s: State) {
    |s.files| == SLOTS && forall i :: 0 <= i < |s.procs| ==> |s.procs[i]| == LOCALS
  }

  // ---------------------------------------------------------------- what the system calls do

  /** get_free_slot_in_file_table, from k on; SLOTS if there is none. */
  function FreeSlot(files: seq<File>, k: nat): (g: nat)
    requires |files| == SLOTS && k <= SLOTS
    ensures k <= g <= SLOTS && (g < SLOTS ==> !files[g].used) && forall j :: k <= j < g ==> files[j].used
    decreases SLOTS - k
  {
    if k == SLOTS || !files[k].used then k else FreeSlot(files, k + 1)
  }

  function FreeLocal(t: seq<int>, k: nat): (l: nat)
    requires |t| == LOCALS && k <= LOCALS
    ensures k <= l <= LOCALS && (l < LOCALS ==> t[l] == NONE) && forall j :: k <= j < l ==> t[j] != NONE
    decreases LOCALS - k
  {
    if k == LOCALS || t[k] == NONE then k else FreeLocal(t, k + 1)
  }

  /** pcb_fd_install: the table after it; unchanged when it is full. */
  function Install(t: seq<int>, g: int): (r: seq<int>)
    requires |t| == LOCALS
    ensures |r| == LOCALS
  {
    var l := FreeLocal(t, 3);
    if l == LOCALS then t else t[l := g]
  }

  /** Opening a regular file, which another writer may deny after the slot was taken. */
  function Open(s: State, i: nat, denied: bool): State
    requires WellFormed(s) && i < |s.procs|
  {
    var g := FreeSlot(s.files, 3);
    if g == SLOTS then s
    else State(s.files[g := File(true, false, 0)], if denied then s.procs else s.procs[i := Install(s.procs[i], g)])
  }

  function Pipe(s: State, i: nat): State
    requires WellFormed(s) && i < |s.procs|
  {
    var g := FreeSlot(s.files, 3);
    if g == SLOTS then s
    else State(s.files[g := File(true, true, 2)], s.procs[i := Install(Install(s.procs[i], g), g)])
  }

  /** What closing a descriptor does to its slot; the count is an unsigned word. */
  function Closed(f: File): File {
    if f.pipe then
      var pos := if f.pos == 0 then 0xFFFF_FFFF else f.pos - 1;
      File(f.used && pos != 0, true, pos)
    else f.(used := false)
  }

  function Close(s: State, i: nat, l: nat): State
    requires WellFormed(s) && i < |s.procs| && l < LOCALS
  {
    var g := s.procs[i][l];
    if l < 2 || !(0 <= g < SLOTS) then s
    else State(s.files[g := Closed(s.files[g])], s.procs[i := s.procs[i][l := NONE]])
  }

  /** The loop of release_prog_resource over the entries from l on. */
  function CloseFrom(s: State, i: nat, l: nat): (r: State)
    requires WellFormed(s) && i < |s.procs| && 3 <= l <= LOCALS
    ensures WellFormed(r) && |r.procs| == |s.procs|
    decreases LOCALS - l
  {
    if l == LOCALS then s
    else CloseFrom(if s.procs[i][l] != NONE then Close(s, i, l) else s, i, l + 1)
  }

  function Exit(s: State, i: nat): State
    requires WellFormed(s) && i < |s.procs|
  {
    var r := CloseFrom(s, i, 3);
    r.(procs := r.procs[..i] + r.procs[i + 1..])
  }

  /** update_inode_open_cnts over the entries from l on, as far as the slots see it. */
  function Shared(files: seq<File>, t: seq<int>, l: nat): (r: seq<File>)
    requires |files| == SLOTS && |t| == LOCALS && 3 <= l <= LOCALS
    ensures |r| == SLOTS
    decreases LOCALS - l
  {
    if l == LOCALS then files
    else
      var g := t[l];
      var next := if 0 <= g < SLOTS && files[g].pipe then files[g := files[g].(pos := files[g].pos + 1)] else files;
      Shared(next, t, l + 1)
  }

  function Fork(s: State, i: nat): State
    requires WellFormed(s) && i < |s.procs|
  {
    State(Shared(s.files, s.procs[i], 3), s.procs + [s.procs[i]])
  }

  function Redirect(s: State, i: nat, old_fd: nat, new_fd: nat): State
    requires WellFormed(s) && i < |s.procs| && old_fd < LOCALS && new_fd < LOCALS
  {
    s.(procs := s.procs[i := s.procs[i][old_fd := if new_fd < 3 then new_fd else s.procs[i][new_fd]]])
  }

  datatype Action =
    | AOpen(i: nat, denied: bool)
    | APipe(i: nat)
    | AClose(i: nat, l: nat)
    | AExit(i: nat)
    | AFork(i: nat)
    | ARedirect(i: nat, old_fd: nat, new_fd: nat)

  predicate Enabled(s: State, a: Action) {
    && WellFormed(s) && a.i < |s.procs|
    && (a.AClose? ==> a.l < LOCALS)
    && (a.ARedirect? ==> a.old_fd < LOCALS && a.new_fd < LOCALS)
  }

  function Step(s: State, a: Action): State
    requires Enabled(s, a)
  {
    match a
    case AOpen(i, denied) => Open(s, i, denied)
    case APipe(i) => Pipe(s, i)
    case AClose(i, l) => Close(s, i, l)
    case AExit(i) => Exit(s, i)
    case AFork(i) => Fork(s, i)
    case ARedirect(i, old_fd, new_fd) => Redirect(s, i, old_fd, new_fd)
  }

  // ---------------------------------------------------------------- the law

  function One(b: bool): nat { if b then 1 else 0 }

  /** How many of the descriptors from 3 up are g. */
  function Uses(t: seq<int>, g: int): nat
    requires |t| == LOCALS
  {
    One(t[3] == g) + One(t[4] == g) + One(t[5] == g) + One(t[6] == g) + One(t[7] == g)
  }

  function Total(q: seq<seq<int>>, g: int): nat
    requires forall i :: 0 <= i < |q| ==> |q[i]| == LOCALS
  {
    if q == [] then 0 else Uses(q[0], g) + Total(q[1..], g)
  }

  predicate EntryOk(files: seq<File>, e: int)
    requires |files| == SLOTS
  {
    e == NONE || (3 <= e < SLOTS && files[e].used)
  }

  predicate SlotOk(f: File, total: nat) {
    f.used ==> total == if f.pipe then f.pos else 1
  }

  /**
   Every descriptor from 3 up is unused or names a slot in use, and a slot in use has as many of them as it
   should: its count if it is a pipe, one if it is a regular file.
   */
  ghost predicate Law(s: State) {
    && WellFormed(s)
    && (forall i, l :: 0 <= i < |s.procs| && 3 <= l < LOCALS ==> EntryOk(s.files, s.procs[i][l]))
    && (forall g :: 0 <= g < 3 ==> !s.files[g].used)
    && (forall g :: 3 <= g < SLOTS ==> SlotOk(s.files[g], Total(s.procs, g)))
    && (forall g :: 3 <= g < SLOTS && s.files[g].used ==> 0 < Total(s.procs, g))
  }

  /** When an action keeps the law; each condition can be checked before the call. */
  predicate Safe(s: State, a: Action)
    requires Enabled(s, a)
  {
    var t := s.procs[a.i];
    match a
    case AOpen(_, denied) => FreeSlot(s.files, 3) == SLOTS || (!denied && Uses(t, NONE) >= 1)
    case APipe(_) => FreeSlot(s.files, 3) == SLOTS || Uses(t, NONE) >= 2
    case AClose(_, l) => l != 2 || !(0 <= t[2] < SLOTS && s.files[t[2]].used)
    case AExit(_) => true
    case AFork(_) => forall l :: 3 <= l < LOCALS && 0 <= t[l] < SLOTS ==> s.files[t[l]].pipe
    case ARedirect(_, old_fd, new_fd) => old_fd < 3 || t[old_fd] == if new_fd < 3 then new_fd else t[new_fd]
  }

  // ---------------------------------------------------------------- counting

  lemma {:induction false} TotalUpdate(q: seq<seq<int>>, i: nat, t: seq<int>, g: int)
    requires i < |q| && |t| == LOCALS && forall j :: 0 <= j < |q| ==> |q[j]| == LOCALS
    ensures Total(q[i := t], g) + Uses(q[i], g) == Total(q, g) + Uses(t, g)
  {
    hide Uses;
    if i == 0 {
      assert q[0 := t][1..] == q[1..];
    } else {
      TotalUpdate(q[1..], i - 1, t, g);
      assert q[i := t][1..] == q[1..][i - 1 := t];
    }
  }

  lemma {:induction false} TotalAppend(q: seq<seq<int>>, t: seq<int>, g: int)
    requires |t| == LOCALS && forall j :: 0 <= j < |q| ==> |q[j]| == LOCALS
    ensures Total(q + [t], g) == Total(q, g) + Uses(t, g)
  {
    hide Uses;
    if q == [] {
      assert (q + [t])[1..] == [];
    } else {
      TotalAppend(q[1..], t, g);
      assert (q + [t])[1..] == q[1..] + [t];
    }
  }

  lemma {:induction false} TotalRemove(q: seq<seq<int>>, i: nat, g: int)
    requires i < |q| && forall j :: 0 <= j < |q| ==> |q[j]| == LOCALS
    ensures Total(q[..i] + q[i + 1..], g) + Uses(q[i], g) == Total(q, g)
  {
    hide Uses;
    var r := q[..i] + q[i + 1..];
    if i == 0 {
      assert r == q[1..];
    } else {
      TotalRemove(q[1..], i - 1, g);
      assert r[0] == q[0] && r[1..] == q[1..][..i - 1] + q[1..][i..];
    }
  }

  /** A slot without references is named by no descriptor from 3 up, and conversely. */
  lemma {:induction false} TotalZero(q: seq<seq<int>>, g: int)
    requires forall j :: 0 <= j < |q| ==> |q[j]| == LOCALS
    ensures Total(q, g) == 0 <==> forall i, l :: 0 <= i < |q| && 3 <= l < LOCALS ==> q[i][l] != g
  {
    if q != [] {
      TotalZero(q[1..], g);
      assert forall i :: 1 <= i < |q| ==> q[i] == q[1..][i - 1];
      assert forall i :: 0 <= i < |q[1..]| ==> q[1..][i] == q[i + 1];
      UsesZero(q[0], g);
    }
  }

  lemma UsesZero(t: seq<int>, g: int)
    requires |t| == LOCALS
    ensures Uses(t, g) == 0 <==> forall l :: 3 <= l < LOCALS ==> t[l] != g
  {
    assert t[3] == t[3] && t[4] == t[4] && t[5] == t[5] && t[6] == t[6] && t[7] == t[7];
  }

  lemma UsesSet(t: seq<int>, l: nat, e: int, g: int)
    requires |t| == LOCALS && 3 <= l < LOCALS
    ensures Uses(t[l := e], g) + One(t[l] == g) == Uses(t, g) + One(e == g)
  {
  }

  lemma UsesLow(t: seq<int>, l: nat, e: int, g: int)
    requires |t| == LOCALS && l < 3
    ensures Uses(t[l := e], g) == Uses(t, g)
  {
  }

  // ---------------------------------------------------------------- one table changes

  /** References to g after process i has table t. */
  function Now(s: State, i: nat, t: seq<int>, g: int): int
    requires WellFormed(s) && i < |s.procs| && |t| == LOCALS
  {
    Total(s.procs, g) - Uses(s.procs[i], g) + Uses(t, g)
  }

  /** What the law needs of a step that changes one table. */
  ghost predicate Fits(s: State, files: seq<File>, i: nat, t: seq<int>)
    requires WellFormed(s) && i < |s.procs| && |t| == LOCALS && |files| == SLOTS
  {
    && (forall l :: 3 <= l < LOCALS ==> EntryOk(files, t[l]))
    && (forall g :: 0 <= g < 3 ==> !files[g].used)
    && (forall g :: 3 <= g < SLOTS && files[g].used ==>
          0 < Now(s, i, t, g) == if files[g].pipe then files[g].pos else 1)
    && (forall g :: 3 <= g < SLOTS && s.files[g].used && !files[g].used ==> Now(s, i, t, g) == 0)
  }

  lemma FitsLaw(s: State, files: seq<File>, i: nat, t: seq<int>)
    requires Law(s) && i < |s.procs| && |t| == LOCALS && |files| == SLOTS
    ensures Law(State(files, s.procs[i := t])) <==> Fits(s, files, i, t)
  {
    hide Uses;
    var d := State(files, s.procs[i := t]);
    forall g: int ensures Total(d.procs, g) == Now(s, i, t, g) { TotalUpdate(s.procs, i, t, g); }
    if Fits(s, files, i, t) {
      forall j, l | 0 <= j < |d.procs| && 3 <= l < LOCALS ensures EntryOk(d.files, d.procs[j][l]) {
        if j != i { OtherEntry(s, files, i, t, j, l); }
      }
    }
    if Law(d) {
      forall l | 3 <= l < LOCALS ensures EntryOk(files, t[l]) { assert d.procs[i][l] == t[l]; }
      forall g | 3 <= g < SLOTS && s.files[g].used && !files[g].used ensures Now(s, i, t, g) == 0 {
        TotalZero(d.procs, g);
      }
    }
  }

  lemma OtherEntry(s: State, files: seq<File>, i: nat, t: seq<int>, j: nat, l: nat)
    requires Law(s) && i < |s.procs| && |t| == LOCALS && |files| == SLOTS && Fits(s, files, i, t)
    requires j < |s.procs| && j != i && 3 <= l < LOCALS
    ensures EntryOk(files, s.procs[j][l])
  {
    hide Uses;
    var e := s.procs[j][l];
    assert EntryOk(s.files, e);
    if e != NONE {
      TotalUpdate(s.procs, i, t, e);
      TotalZero(s.procs[i := t], e);
      assert s.procs[i := t][j][l] == e;
    }
  }

  /** What the law says about one table. */
  lemma TableFacts(s: State, i: nat)
    requires Law(s) && i < |s.procs|
    ensures forall l :: 3 <= l < LOCALS ==> EntryOk(s.files, s.procs[i][l])
    ensures forall g :: 0 <= g < SLOTS && !s.files[g].used ==> Total(s.procs, g) == 0 && Uses(s.procs[i], g) == 0
    ensures forall g: int :: Uses(s.procs[i], g) <= Total(s.procs, g)
  {
    forall g | 0 <= g < SLOTS && !s.files[g].used ensures Total(s.procs, g) == 0 && Uses(s.procs[i], g) == 0 {
      forall j, l | 0 <= j < |s.procs| && 3 <= l < LOCALS
        ensures s.procs[j][l] != g
      {
        assert EntryOk(s.files, s.procs[j][l]);
      }
      TotalZero(s.procs, g);
      UsesZero(s.procs[i], g);
    }
    forall g: int ensures Uses(s.procs[i], g) <= Total(s.procs, g) { TotalRemove(s.procs, i, g); }
  }

  lemma InstallUses(t: seq<int>, g: int, h: int)
    requires |t| == LOCALS && g != NONE
    ensures FreeLocal(t, 3) < LOCALS <==> Uses(t, NONE) > 0
    ensures Uses(Install(t, g), h) == if Uses(t, NONE) == 0 then Uses(t, h)
      else Uses(t, h) + One(h == g) - One(h == NONE)
  {
    UsesZero(t, NONE);
    var l := FreeLocal(t, 3);
    if l < LOCALS { UsesSet(t, l, g, h); }
  }

  lemma InstallEntry(t: seq<int>, g: int, l: nat)
    requires |t| == LOCALS && l < LOCALS
    ensures Install(t, g)[l] == t[l] || Install(t, g)[l] == g
  {
  }

  // ---------------------------------------------------------------- exactly when each call keeps the law

  lemma OpenExact(s: State, i: nat, denied: bool)
    requires Law(s) && i < |s.procs|
    ensures Law(Open(s, i, denied)) <==> Safe(s, AOpen(i, denied))
  {
    var g := FreeSlot(s.files, 3);
    if g < SLOTS {
      var files, t := s.files[g := File(true, false, 0)], if denied then s.procs[i] else Install(s.procs[i], g);
      assert s.procs[i := s.procs[i]] == s.procs;
      InstallExact(s, i, files, t, g, if denied then 0 else One(Uses(s.procs[i], NONE) > 0)) by {
        forall h
          ensures !denied ==>
            Uses(t, h) == if Uses(s.procs[i], NONE) == 0 then Uses(s.procs[i], h)
                          else Uses(s.procs[i], h) + One(h == g) - One(h == NONE)
        {
          InstallUses(s.procs[i], g, h);
        }
      }
    }
  }

  /** A free slot g is taken, and n descriptors of process i now name it. */
  lemma InstallExact(s: State, i: nat, files: seq<File>, t: seq<int>, g: nat, n: nat)
    requires Law(s) && i < |s.procs| && |t| == LOCALS && 3 <= g < SLOTS && !s.files[g].used
    requires |files| == SLOTS && files[g].used && forall h :: 0 <= h < SLOTS && h != g ==> files[h] == s.files[h]
    requires forall h: int :: h != NONE ==> Uses(t, h) == Uses(s.procs[i], h) + if h == g then n else 0
    requires forall l :: 3 <= l < LOCALS ==> t[l] == s.procs[i][l] || t[l] == g
    ensures Law(State(files, s.procs[i := t])) <==> 0 < n == if files[g].pipe then files[g].pos else 1
  {
    hide Uses;
    TableFacts(s, i);
    FitsLaw(s, files, i, t);
    assert Now(s, i, t, g) == n;
    forall l | 3 <= l < LOCALS ensures EntryOk(files, t[l]) { assert EntryOk(s.files, s.procs[i][l]); }
    forall h | 3 <= h < SLOTS && h != g
      ensures Now(s, i, t, h) == Total(s.procs, h) && SlotOk(s.files[h], Total(s.procs, h))
    {
    }
  }

  lemma PipeExact(s: State, i: nat)
    requires Law(s) && i < |s.procs|
    ensures Law(Pipe(s, i)) <==> Safe(s, APipe(i))
  {
    hide Law, Install;
    LawShape(s);
    var g := FreeSlot(s.files, 3);
    if g < SLOTS {
      var t0 := s.procs[i];
      var t1 := Install(t0, g);
      var t2 := Install(t1, g);
      var none := Uses(t0, NONE);
      forall h: int | h != NONE
        ensures Uses(t2, h) == Uses(t0, h) + if h == g then (if none >= 2 then 2 else none) else 0
      {
        InstallTwice(t0, g, h);
      }
      forall l | 3 <= l < LOCALS ensures t2[l] == t0[l] || t2[l] == g {
        InstallEntry(t0, g, l);
        InstallEntry(t1, g, l);
      }
      InstallExact(s, i, s.files[g := File(true, true, 2)], t2, g, if none >= 2 then 2 else none);
    }
  }

  lemma LawShape(s: State)
    requires Law(s)
    ensures WellFormed(s)
  {
  }

  lemma InstallTwice(t: seq<int>, g: int, h: int)
    requires |t| == LOCALS && g != NONE && h != NONE
    ensures var n := Uses(t, NONE);
      Uses(Install(Install(t, g), g), h) == Uses(t, h) + if h == g then (if n >= 2 then 2 else n) else 0
  {
    hide Uses, Install;
    InstallUses(t, g, h);
    InstallUses(t, g, NONE);
    InstallUses(Install(t, g), g, h);
  }

  lemma CloseExact(s: State, i: nat, l: nat)
    requires Law(s) && i < |s.procs| && l < LOCALS
    ensures Law(Close(s, i, l)) <==> Safe(s, AClose(i, l))
  {
    var t := s.procs[i];
    var g := t[l];
    if 2 <= l && 0 <= g < SLOTS {
      var files, t2 := s.files[g := Closed(s.files[g])], t[l := NONE];
      TableFacts(s, i);
      FitsLaw(s, files, i, t2);
      forall h: int | h != NONE ensures Uses(t2, h) == Uses(t, h) - One(3 <= l && h == g) {
        if l == 2 { UsesLow(t, l, NONE, h); } else { UsesSet(t, l, NONE, h); }
      }
      CloseFits(s, i, l, files, t2);
    }
  }

  lemma CloseFits(s: State, i: nat, l: nat, files: seq<File>, t2: seq<int>)
    requires Law(s) && i < |s.procs| && 2 <= l < LOCALS && 0 <= s.procs[i][l] < SLOTS
    requires var g := s.procs[i][l]; files == s.files[g := Closed(s.files[g])] && t2 == s.procs[i][l := NONE]
    requires forall h: int :: h != NONE ==> Uses(t2, h) == Uses(s.procs[i], h) - One(3 <= l && h == s.procs[i][l])
    requires forall h :: 3 <= h < LOCALS ==> EntryOk(s.files, s.procs[i][h])
    ensures Fits(s, files, i, t2) <==> Safe(s, AClose(i, l))
  {
    hide Uses;
    var g := s.procs[i][l];
    forall h | 3 <= h < SLOTS
      ensures SlotOk(s.files[h], Total(s.procs, h)) && Now(s, i, t2, h) == Total(s.procs, h) - One(3 <= l && h == g)
    {
    }
    if 3 <= l {
      assert EntryOk(s.files, g) && 0 < Total(s.procs, g);
      forall k | 3 <= k < LOCALS ensures EntryOk(files, t2[k]) || Now(s, i, t2, g) == 0 { }
      if Now(s, i, t2, g) == 0 { NoneLeft(s, i, t2, g); }
    }
  }

  lemma NoneLeft(s: State, i: nat, t: seq<int>, g: int)
    requires WellFormed(s) && i < |s.procs| && |t| == LOCALS && Now(s, i, t, g) == 0
    ensures forall k :: 3 <= k < LOCALS ==> t[k] != g
  {
    hide Uses;
    TotalUpdate(s.procs, i, t, g);
    TotalZero(s.procs[i := t], g);
    assert s.procs[i := t][i] == t;
  }

  lemma RedirectExact(s: State, i: nat, old_fd: nat, new_fd: nat)
    requires Law(s) && i < |s.procs| && old_fd < LOCALS && new_fd < LOCALS
    ensures Law(Redirect(s, i, old_fd, new_fd)) <==> Safe(s, ARedirect(i, old_fd, new_fd))
  {
    hide Law, Uses, SlotOk, Fits;
    LawShape(s);
    var t := s.procs[i];
    var e := if new_fd < 3 then new_fd else t[new_fd];
    var t2 := t[old_fd := e];
    FitsLaw(s, s.files, i, t2);
    if t2 == t {
      assert s.procs[i := t] == s.procs;
    } else if old_fd < 3 {
      forall g: int ensures Uses(t2, g) == Uses(t, g) { UsesLow(t, old_fd, e, g); }
      SameFitsAt(s, i, t2);
    } else {
      TableFacts(s, i);
      UsesSet(t, old_fd, e, t[old_fd]);
      UsesSet(t, old_fd, e, e);
      MovedBroken(s, i, old_fd, t2);
    }
  }

  lemma SameFitsAt(s: State, i: nat, t2: seq<int>)
    requires Law(s) && i < |s.procs| && |t2| == LOCALS && forall g: int :: Uses(t2, g) == Uses(s.procs[i], g)
    requires forall l :: 3 <= l < LOCALS ==> t2[l] == s.procs[i][l]
    ensures Fits(s, s.files, i, t2)
  {
    hide Uses, SlotOk, Fits;
    TableFacts(s, i);
    SameFits(s, i, t2);
  }

  lemma SameFits(s: State, i: nat, t2: seq<int>)
    requires Law(s) && i < |s.procs| && |t2| == LOCALS && forall g: int :: Uses(t2, g) == Uses(s.procs[i], g)
    requires forall l :: 3 <= l < LOCALS ==> t2[l] == s.procs[i][l]
    ensures Fits(s, s.files, i, t2)
  {
    hide Uses;
    forall g | 3 <= g < SLOTS ensures SlotOk(s.files[g], Total(s.procs, g)) && Now(s, i, t2, g) == Total(s.procs, g) { }
  }

  /** Overwriting a descriptor from 3 up with something else miscounts the slot it named, or the one it names now. */
  lemma MovedBroken(s: State, i: nat, l: nat, t2: seq<int>)
    requires Law(s) && i < |s.procs| && |t2| == LOCALS && 3 <= l < LOCALS && t2[l] != s.procs[i][l]
    requires EntryOk(s.files, s.procs[i][l])
    requires Uses(t2, s.procs[i][l]) + 1 == Uses(s.procs[i], s.procs[i][l])
    requires Uses(t2, t2[l]) == Uses(s.procs[i], t2[l]) + 1
    ensures !Fits(s, s.files, i, t2)
  {
    hide Uses;
    var g, e := s.procs[i][l], t2[l];
    if g != NONE {
      assert SlotOk(s.files[g], Total(s.procs, g));
    } else if EntryOk(s.files, e) {
      assert SlotOk(s.files[e], Total(s.procs, e));
    }
  }

  // ---------------------------------------------------------------- fork and exit

  function UsesFrom(t: seq<int>, l: nat, g: int): nat
    requires |t| == LOCALS && 3 <= l <= LOCALS
    decreases LOCALS - l
  {
    if l == LOCALS then 0 else One(t[l] == g) + UsesFrom(t, l + 1, g)
  }

  lemma UsesFromAll(t: seq<int>, g: int)
    requires |t| == LOCALS
    ensures UsesFrom(t, 3, g) == Uses(t, g)
  {
    assert UsesFrom(t, 6, g) == One(t[6] == g) + (One(t[7] == g) + UsesFrom(t, 8, g));
    assert UsesFrom(t, 4, g) == One(t[4] == g) + (One(t[5] == g) + UsesFrom(t, 6, g));
  }

  lemma {:induction false} SharedAt(files: seq<File>, t: seq<int>, l: nat, g: nat)
    requires |files| == SLOTS && |t| == LOCALS && 3 <= l <= LOCALS && g < SLOTS
    ensures Shared(files, t, l)[g] == if files[g].pipe then files[g].(pos := files[g].pos + UsesFrom(t, l, g))
      else files[g]
    decreases LOCALS - l
  {
    if l < LOCALS {
      var e := t[l];
      var next := if 0 <= e < SLOTS && files[e].pipe then files[e := files[e].(pos := files[e].pos + 1)] else files;
      SharedAt(next, t, l + 1, g);
      assert UsesFrom(t, l, g) == One(e == g) + UsesFrom(t, l + 1, g);
      assert Shared(files, t, l) == Shared(next, t, l + 1);
    }
  }

  /** One turn of the counting loop, and its end. */
  lemma SharedStep(files: seq<File>, t: seq<int>, l: nat)
    requires |files| == SLOTS && |t| == LOCALS && 3 <= l <= LOCALS
    ensures l == LOCALS ==> Shared(files, t, l) == files
    ensures l < LOCALS && 0 <= t[l] < SLOTS && files[t[l]].pipe ==>
      Shared(files, t, l) == Shared(files[t[l] := files[t[l]].(pos := files[t[l]].pos + 1)], t, l + 1)
    ensures l < LOCALS && !(0 <= t[l] < SLOTS && files[t[l]].pipe) ==> Shared(files, t, l) == Shared(files, t, l + 1)
  {
  }

  lemma ForkExact(s: State, i: nat)
    requires Law(s) && i < |s.procs|
    ensures Law(Fork(s, i)) <==> Safe(s, AFork(i))
  {
    hide Uses, Shared, Law, SlotOk, EntryOk;
    LawShape(s);
    var t, d := s.procs[i], Fork(s, i);
    TableFacts(s, i);
    forall g | 0 <= g < SLOTS
      ensures Total(d.procs, g) == Total(s.procs, g) + Uses(t, g)
      ensures d.files[g] == if s.files[g].pipe then s.files[g].(pos := s.files[g].pos + Uses(t, g)) else s.files[g]
    {
      TotalAppend(s.procs, t, g);
      SharedAt(s.files, t, 3, g);
      UsesFromAll(t, g);
    }
    if Safe(s, AFork(i)) {
      ForkKeeps(s, d, i);
    } else {
      var l :| 3 <= l < LOCALS && 0 <= t[l] < SLOTS && !s.files[t[l]].pipe;
      UsesZero(t, t[l]);
      RegularShared(s, d, t[l]);
    }
  }

  lemma ForkKeeps(s: State, d: State, i: nat)
    requires Law(s) && i < |s.procs| && Safe(s, AFork(i)) && |d.files| == SLOTS && d.procs == s.procs + [s.procs[i]]
    requires forall g :: 0 <= g < SLOTS ==> Total(d.procs, g) == Total(s.procs, g) + Uses(s.procs[i], g)
    requires forall g :: 0 <= g < SLOTS ==>
      d.files[g] == if s.files[g].pipe then s.files[g].(pos := s.files[g].pos + Uses(s.procs[i], g)) else s.files[g]
    ensures Law(d)
  {
    hide Uses;
    forall g | 3 <= g < SLOTS ensures SlotOk(d.files[g], Total(d.procs, g)) {
      assert SlotOk(s.files[g], Total(s.procs, g));
      UsesZero(s.procs[i], g);
    }
    forall j, l | 0 <= j < |d.procs| && 3 <= l < LOCALS ensures EntryOk(d.files, d.procs[j][l]) {
      assert EntryOk(s.files, s.procs[if j < |s.procs| then j else i][l]);
    }
  }

  /** A regular file that two processes name is one descriptor too many for its slot. */
  lemma RegularShared(s: State, d: State, g: nat)
    requires Law(s) && g < SLOTS && WellFormed(d) && !s.files[g].pipe && d.files[g] == s.files[g]
    requires exists i, l :: 0 <= i < |s.procs| && 3 <= l < LOCALS && s.procs[i][l] == g
    requires Total(d.procs, g) > Total(s.procs, g)
    ensures !Law(d)
  {
    var i, l :| 0 <= i < |s.procs| && 3 <= l < LOCALS && s.procs[i][l] == g;
    assert EntryOk(s.files, s.procs[i][l]);
    assert SlotOk(s.files[g], Total(s.procs, g));
  }

  lemma {:induction false} CloseFromKeeps(s: State, i: nat, l: nat)
    requires Law(s) && i < |s.procs| && 3 <= l <= LOCALS && forall k :: 3 <= k < l ==> s.procs[i][k] == NONE
    ensures var r := CloseFrom(s, i, l); Law(r) && forall k :: 3 <= k < LOCALS ==> r.procs[i][k] == NONE
    ensures var r := CloseFrom(s, i, l); forall j :: 0 <= j < |s.procs| && j != i ==> r.procs[j] == s.procs[j]
    decreases LOCALS - l
  {
    hide Law;
    LawShape(s);
    if l < LOCALS {
      if s.procs[i][l] != NONE {
        CloseExact(s, i, l);
        TableFacts(s, i);
        CloseFromKeeps(Close(s, i, l), i, l + 1);
      } else {
        CloseFromKeeps(s, i, l + 1);
      }
    }
  }

  lemma ExitKeeps(s: State, i: nat)
    requires Law(s) && i < |s.procs|
    ensures Law(Exit(s, i))
  {
    hide Uses, SlotOk, EntryOk;
    CloseFromKeeps(s, i, 3);
    var r, d := CloseFrom(s, i, 3), Exit(s, i);
    forall g: nat ensures Total(d.procs, g) == Total(r.procs, g) {
      TotalRemove(r.procs, i, g);
      UsesZero(r.procs[i], g);
    }
  }

  // ---------------------------------------------------------------- the main results

  /** A pipe in use has as many descriptors from 3 up as it counts, at least one; one that was freed has none. */
  predicate PipeOk(f: File, total: nat) {
    f.pipe ==> if f.used then 0 < total == f.pos else total == 0
  }

  /** The law for pipes alone. It does not carry itself from call to call, as StaleDescriptor shows; Law does. */
  ghost predicate PipeLaw(s: State) {
    WellFormed(s) && forall g :: 3 <= g < SLOTS ==> PipeOk(s.files[g], Total(s.procs, g))
  }

  predicate NamesPipe(s: State, e: int)
    requires WellFormed(s)
  {
    3 <= e < SLOTS && s.files[e].pipe
  }

  /** When an action keeps every pipe counted right. */
  predicate PipeSafe(s: State, a: Action)
    requires Enabled(s, a)
  {
    var t := s.procs[a.i];
    match a
    case AOpen(_, _) => true
    case APipe(_) => FreeSlot(s.files, 3) == SLOTS || Uses(t, NONE) >= 2
    case AClose(_, l) => l != 2 || !(NamesPipe(s, t[2]) && s.files[t[2]].used)
    case AExit(_) => true
    case AFork(_) => true
    case ARedirect(_, old_fd, new_fd) =>
      var e := if new_fd < 3 then new_fd else t[new_fd];
      old_fd < 3 || t[old_fd] == e || (!NamesPipe(s, t[old_fd]) && !NamesPipe(s, e))
  }

  lemma LawPipes(s: State)
    requires Law(s)
    ensures PipeLaw(s)
  {
    hide Uses;
    forall g | 3 <= g < SLOTS ensures PipeOk(s.files[g], Total(s.procs, g)) {
      assert SlotOk(s.files[g], Total(s.procs, g));
      if !s.files[g].used { UnusedUnnamed(s, g); }
    }
  }

  lemma UnusedUnnamed(s: State, g: nat)
    requires Law(s) && 0 <= g < SLOTS && !s.files[g].used
    ensures Total(s.procs, g) == 0
  {
    hide Uses;
    forall j, l | 0 <= j < |s.procs| && 3 <= l < LOCALS
      ensures s.procs[j][l] != g
    {
      assert EntryOk(s.files, s.procs[j][l]);
    }
    TotalZero(s.procs, g);
  }

  /** A step that changes one table, seen by one slot. */
  lemma PipeAt(s: State, files: seq<File>, i: nat, t: seq<int>)
    requires WellFormed(s) && i < |s.procs| && |t| == LOCALS && |files| == SLOTS
    ensures forall g :: 3 <= g < SLOTS ==> 0 <= Now(s, i, t, g)
    ensures PipeLaw(State(files, s.procs[i := t])) <==> forall g :: 3 <= g < SLOTS ==> PipeOk(files[g], Now(s, i, t, g))
  {
    hide Uses;
    var d := State(files, s.procs[i := t]);
    forall g: int ensures Total(d.procs, g) == Now(s, i, t, g) { TotalUpdate(s.procs, i, t, g); }
    if PipeLaw(d) {
      forall g | 3 <= g < SLOTS
        ensures PipeOk(files[g], Now(s, i, t, g))
      {
        assert PipeOk(d.files[g], Total(d.procs, g));
      }
    }
  }

  lemma OpenPipes(s: State, i: nat, denied: bool)
    requires Law(s) && i < |s.procs|
    ensures PipeLaw(Open(s, i, denied))
  {
    hide Law, Uses, Install;
    LawShape(s);
    LawPipes(s);
    var g := FreeSlot(s.files, 3);
    if g < SLOTS {
      var files, t := s.files[g := File(true, false, 0)], if denied then s.procs[i] else Install(s.procs[i], g);
      assert s.procs[i := s.procs[i]] == s.procs;
      PipeAt(s, files, i, t);
      forall h | 3 <= h < SLOTS ensures PipeOk(files[h], Now(s, i, t, h)) {
        assert PipeOk(s.files[h], Total(s.procs, h));
        InstallUses(s.procs[i], g, h);
      }
    }
  }

  lemma PipeOverfull(s: State, i: nat)
    requires Law(s) && i < |s.procs| && FreeSlot(s.files, 3) < SLOTS && Uses(s.procs[i], NONE) < 2
    ensures !PipeLaw(Pipe(s, i))
  {
    hide Law, Uses, Install;
    LawShape(s);
    var g := FreeSlot(s.files, 3);
    UnusedUnnamed(s, g);
    TableFacts(s, i);
    InstallTwice(s.procs[i], g, g);
    var files, t := s.files[g := File(true, true, 2)], Install(Install(s.procs[i], g), g);
    PipeAt(s, files, i, t);
    assert !PipeOk(files[g], Now(s, i, t, g));
  }

  /** Closing descriptor 2 when it names a slot in use: a pipe is miscounted, a regular file is not a pipe. */
  lemma CloseTwo(s: State, i: nat)
    requires Law(s) && i < |s.procs| && 0 <= s.procs[i][2] < SLOTS && s.files[s.procs[i][2]].used
    ensures PipeLaw(Close(s, i, 2)) <==> !s.files[s.procs[i][2]].pipe
  {
    hide Uses, Law;
    LawShape(s);
    LawPipes(s);
    LowUnused(s);
    var g := s.procs[i][2];
    var files, t := s.files[g := Closed(s.files[g])], s.procs[i][2 := NONE];
    PipeAt(s, files, i, t);
    forall h | 3 <= h < SLOTS ensures Now(s, i, t, h) == Total(s.procs, h) && PipeOk(s.files[h], Total(s.procs, h)) {
      UsesLow(s.procs[i], 2, NONE, h);
    }
    if s.files[g].pipe { assert !PipeOk(files[g], Now(s, i, t, g)); }
  }

  lemma LowUnused(s: State)
    requires Law(s)
    ensures forall g :: 0 <= g < 3 ==> !s.files[g].used
  {
  }

  lemma ForkPipes(s: State, i: nat)
    requires Law(s) && i < |s.procs|
    ensures PipeLaw(Fork(s, i))
  {
    hide Uses, Shared, Law;
    LawShape(s);
    LawPipes(s);
    TableFacts(s, i);
    var t, d := s.procs[i], Fork(s, i);
    forall g | 3 <= g < SLOTS ensures PipeOk(d.files[g], Total(d.procs, g)) {
      assert PipeOk(s.files[g], Total(s.procs, g));
      TotalAppend(s.procs, t, g);
      SharedAt(s.files, t, 3, g);
      UsesFromAll(t, g);
    }
  }

  lemma RedirectPipes(s: State, i: nat, old_fd: nat, new_fd: nat)
    requires Law(s) && i < |s.procs| && 3 <= old_fd < LOCALS && new_fd < LOCALS
    requires s.procs[i][old_fd] != if new_fd < 3 then new_fd else s.procs[i][new_fd]
    ensures PipeLaw(Redirect(s, i, old_fd, new_fd)) <==> PipeSafe(s, ARedirect(i, old_fd, new_fd))
  {
    hide Uses, Law;
    LawShape(s);
    LawPipes(s);
    TableFacts(s, i);
    var t := s.procs[i];
    var e := if new_fd < 3 then new_fd else t[new_fd];
    var t2 := t[old_fd := e];
    PipeAt(s, s.files, i, t2);
    assert State(s.files, s.procs[i := t2]) == Redirect(s, i, old_fd, new_fd);
    forall h | 3 <= h < SLOTS
      ensures Now(s, i, t2, h) == Total(s.procs, h) - One(t[old_fd] == h) + One(e == h)
      ensures PipeOk(s.files[h], Total(s.procs, h))
    {
      UsesSet(t, old_fd, e, h);
    }
    RedirectSlots(s, i, t2, t[old_fd], e);
  }

  lemma RedirectSlots(s: State, i: nat, t2: seq<int>, was: int, e: int)
    requires WellFormed(s) && i < |s.procs| && |t2| == LOCALS && was != e
    requires EntryOk(s.files, was) && (EntryOk(s.files, e) || 0 <= e < 3)
    requires forall h :: 3 <= h < SLOTS ==> PipeOk(s.files[h], Total(s.procs, h))
    requires forall h :: 3 <= h < SLOTS ==> 0 <= Now(s, i, t2, h) == Total(s.procs, h) - One(was == h) + One(e == h)
    ensures (forall h :: 3 <= h < SLOTS ==> PipeOk(s.files[h], Now(s, i, t2, h))) <==>
      !NamesPipe(s, was) && !NamesPipe(s, e)
  {
    hide Now, Total;
    if NamesPipe(s, was) { assert !PipeOk(s.files[was], Now(s, i, t2, was)); }
    if NamesPipe(s, e) { assert !PipeOk(s.files[e], Now(s, i, t2, e)); }
  }

  /** A call leaves every pipe counted right exactly when its condition holds. */
  lemma PipeLawExact(s: State, a: Action)
    requires Law(s) && Enabled(s, a)
    ensures PipeLaw(Step(s, a)) <==> PipeSafe(s, a)
  {
    hide Law, PipeLaw, Open, Pipe, Close, Exit, Fork, Redirect;
    LawExact(s, a);
    if Safe(s, a) { LawPipes(Step(s, a)); }
    match a
    case AOpen(i, denied) => OpenPipes(s, i, denied);
    case APipe(i) => if !Safe(s, a) { PipeOverfull(s, i); }
    case AClose(i, l) =>
      if !Safe(s, a) {
        LowUnused(s);
        CloseTwo(s, i);
      }
    case AExit(i) =>
    case AFork(i) => ForkPipes(s, i);
    case ARedirect(i, old_fd, new_fd) => if !Safe(s, a) { RedirectPipes(s, i, old_fd, new_fd); }
  }

  /** A call keeps the law exactly when its condition holds. */
  lemma LawExact(s: State, a: Action)
    requires Law(s) && Enabled(s, a)
    ensures Law(Step(s, a)) <==> Safe(s, a)
  {
    hide Law, Open, Pipe, Close, Exit, Fork, Redirect;
    match a
    case AOpen(i, denied) => OpenExact(s, i, denied);
    case APipe(i) => PipeExact(s, i);
    case AClose(i, l) => CloseExact(s, i, l);
    case AExit(i) => ExitKeeps(s, i);
    case AFork(i) => ForkExact(s, i);
    case ARedirect(i, old_fd, new_fd) => RedirectExact(s, i, old_fd, new_fd);
  }

  /** Every call of a run is possible, and safe where it happens. */
  predicate SafeRun(s: State, acts: seq<Action>)
    decreases |acts|
  {
    acts == [] || (Enabled(s, acts[0]) && Safe(s, acts[0]) && SafeRun(Step(s, acts[0]), acts[1..]))
  }

  function Run(s: State, acts: seq<Action>): State
    requires SafeRun(s, acts)
    decreases |acts|
  {
    if acts == [] then s else Run(Step(s, acts[0]), acts[1..])
  }

  lemma {:induction false} LawHolds(s: State, acts: seq<Action>)
    requires Law(s) && SafeRun(s, acts)
    ensures Law(Run(s, acts))
    decreases |acts|
  {
    hide Law, Safe, Step;
    if acts != [] {
      LawExact(s, acts[0]);
      LawHolds(Step(s, acts[0]), acts[1..]);
    }
  }

  /** The empty table with one process that has only its standard descriptors. */
  function Boot(): State {
    State(seq(SLOTS, _ => File(false, false, 0)), [[0, 1, 2, NONE, NONE, NONE, NONE, NONE]])
  }

  lemma BootLaw()
    ensures Law(Boot())
  {
  }

  function Table(a: int, b: int, c: int): seq<int> { [0, 1, a, b, c, NONE, NONE, NONE] }

  lemma TotalOne(t: seq<int>, g: int)
    requires |t| == LOCALS
    ensures Total([t], g) == Uses(t, g)
  {
    assert [t][1..] == [];
  }

  lemma TotalTwo(t: seq<int>, u: seq<int>, g: int)
    requires |t| == LOCALS && |u| == LOCALS
    ensures Total([t, u], g) == Uses(t, g) + Uses(u, g)
  {
    assert [t, u][1..] == [u];
    TotalOne(u, g);
  }

  /** An unsafe call that a run reaches: a pipe, its read end put on descriptor 2, and descriptor 2 closed. */
  lemma RedirectedClose(s1: State, r: State, d: State)
    requires s1 == Pipe(Boot(), 0) && WellFormed(s1) && |s1.procs| == 1
    requires r == Redirect(s1, 0, 2, 3) && WellFormed(r) && d == Close(r, 0, 2)
    ensures SafeRun(Boot(), [APipe(0), ARedirect(0, 2, 3)]) && !PipeSafe(r, AClose(0, 2))
    ensures d.files[3] == File(true, true, 1) && WellFormed(d) && Total(d.procs, 3) == 2
  {
    hide SafeRun, Law;
    BootLaw();
    var s := Boot();
    var files := s.files[3 := File(true, true, 2)];
    InstallSteps();
    assert s1 == State(files, [Table(2, 3, 3)]);
    assert Table(2, 3, 3)[2 := 3] == Table(3, 3, 3) && Table(3, 3, 3)[2 := NONE] == Table(NONE, 3, 3);
    assert r == State(files, [Table(3, 3, 3)]);
    assert d == State(files[3 := File(true, true, 1)], [Table(NONE, 3, 3)]);
    TotalOne(Table(NONE, 3, 3), 3);
    TwoSafe(s, APipe(0), ARedirect(0, 2, 3));
  }

  lemma InstallSteps()
    ensures Install(Table(2, NONE, NONE), 3) == Table(2, 3, NONE) && Install(Table(2, 3, NONE), 3) == Table(2, 3, 3)
    ensures FreeSlot(Boot().files, 3) == 3 && Boot().procs == [Table(2, NONE, NONE)]
  {
    assert FreeLocal(Table(2, NONE, NONE), 3) == 3;
    assert FreeLocal(Table(2, 3, NONE), 3) == 4;
  }

  lemma TwoSafe(s: State, a: Action, b: Action)
    requires Enabled(s, a) && Safe(s, a) && Enabled(Step(s, a), b) && Safe(Step(s, a), b)
    ensures SafeRun(s, [a, b])
  {
    hide Safe, Step, Enabled;
    assert [a, b][1..] == [b] && [b][1..] == [];
    assert SafeRun(Step(Step(s, a), b), []);
    assert SafeRun(Step(s, a), [b]);
  }

  /**
   Why the law speaks of regular files too: every call here leaves all pipes counted right until the last, when a
   descriptor that a fork left behind names the slot of a new pipe.
   */
  lemma StaleDescriptor(s1: State, s2: State, s3: State, s4: State)
    requires s1 == Open(Boot(), 0, false) && WellFormed(s1) && |s1.procs| == 1
    requires s2 == Fork(s1, 0) && WellFormed(s2) && |s2.procs| == 2
    requires s3 == Close(s2, 0, 3) && WellFormed(s3) && |s3.procs| == 2 && s4 == Pipe(s3, 0)
    ensures PipeLaw(s1) && PipeLaw(s2) && !Law(s2) && PipeLaw(s3) && PipeSafe(s3, APipe(0))
    ensures s4.files[3] == File(true, true, 2) && WellFormed(s4) && Total(s4.procs, 3) == 3
  {
    hide Law, PipeLaw;
    var s := Boot();
    var t0, t1, t2 := Table(2, NONE, NONE), Table(2, 3, NONE), Table(2, 3, 3);
    var f1 := s.files[3 := File(true, false, 0)];
    var f3 := s.files[3 := File(false, false, 0)];
    BootLaw();
    InstallSteps();
    assert s1 == State(f1, [t1]);
    OpenPipes(s, 0, false);
    OpenExact(s, 0, false);
    StaleFork(f1, t1);
    assert s2 == State(f1, [t1, t1]);
    ForkPipes(s1, 0);
    ForkExact(s1, 0);
    assert f1[3 := File(false, false, 0)] == f3 && t1[3 := NONE] == t0;
    assert s3 == State(f3, [t0, t1]);
    NoPipes(s3);
    assert FreeSlot(f3, 3) == 3;
    assert s4 == State(f3[3 := File(true, true, 2)], [t2, t1]);
    TotalTwo(t2, t1, 3);
  }

  lemma StaleFork(files: seq<File>, t: seq<int>)
    requires |files| == SLOTS && |t| == LOCALS && forall g :: 0 <= g < SLOTS ==> !files[g].pipe
    ensures Shared(files, t, 3) == files
  {
    forall g | 0 <= g < SLOTS ensures Shared(files, t, 3)[g] == files[g] { SharedAt(files, t, 3, g); }
  }

  lemma NoPipes(s: State)
    requires WellFormed(s) && forall g :: 0 <= g < SLOTS ==> !s.files[g].pipe
    ensures PipeLaw(s)
  {
  }

  /** In a safe run, closing a descriptor of a pipe frees its buffer exactly when no process has another one. */
  lemma LastCloseFrees(acts: seq<Action>, i: nat, l: nat)
    requires SafeRun(Boot(), acts)
    requires var s := Run(Boot(), acts);
      i < |s.procs| && 3 <= l < LOCALS && |s.procs[i]| == LOCALS && s.procs[i][l] != NONE
    ensures var s := Run(Boot(), acts); WellFormed(s) && 3 <= s.procs[i][l] < SLOTS && s.files[s.procs[i][l]].used
    ensures var s := Run(Boot(), acts); var d := Close(s, i, l);
      d.files[s.procs[i][l]].used <==>
        exists j, k :: 0 <= j < |s.procs| && 3 <= k < LOCALS && (j != i || k != l) && s.procs[j][k] == s.procs[i][l]
  {
    hide SafeRun, Run;
    BootLaw();
    LawHolds(Boot(), acts);
    CloseFrees(Run(Boot(), acts), i, l);
  }

  lemma CloseFrees(s: State, i: nat, l: nat)
    requires Law(s) && i < |s.procs| && 3 <= l < LOCALS && s.procs[i][l] != NONE
    ensures 3 <= s.procs[i][l] < SLOTS && s.files[s.procs[i][l]].used
    ensures Close(s, i, l).files[s.procs[i][l]].used <==>
        exists j, k :: 0 <= j < |s.procs| && 3 <= k < LOCALS && (j != i || k != l) && s.procs[j][k] == s.procs[i][l]
  {
    hide Uses;
    TableFacts(s, i);
    CloseExact(s, i, l);
    var g, d := s.procs[i][l], Close(s, i, l);
    assert EntryOk(s.files, g);
    TotalZero(d.procs, g);
    if j, k :| 0 <= j < |s.procs| && 3 <= k < LOCALS && (j != i || k != l) && s.procs[j][k] == g {
      assert d.procs[j][k] == g;
      assert EntryOk(d.files, d.procs[j][k]);
    } else {
      assert forall j, k :: 0 <= j < |d.procs| && 3 <= k < LOCALS ==> d.procs[j][k] != g;
    }
  }

  // ---------------------------------------------------------------- the tables, updated in place

  class Tables {
    var files: seq<File>
    var procs: seq<seq<int>>

    function S(): State
      reads this
    {
      State(files, procs)
    }

    constructor ()
      ensures S() == Boot() && Law(S())
    {
      files := seq(SLOTS, _ => File(false, false, 0));
      procs := [[0, 1, 2, NONE, NONE, NONE, NONE, NONE]];
      new;
      BootLaw();
    }

    method GetFreeSlot() returns (g: nat)
      requires |files| == SLOTS
      ensures g == FreeSlot(files, 3)
    {
      g := 3;
      while g < SLOTS && files[g].used
        invariant 3 <= g <= SLOTS && FreeSlot(files, 3) == FreeSlot(files, g)
      {
        g := g + 1;
      }
    }

    /** pcb_fd_install for process i: the local descriptor, or -1. */
    method PcbFdInstall(i: nat, g: int) returns (l: int)
      requires WellFormed(S()) && i < |procs|
      modifies this`procs
      ensures procs == old(procs)[i := Install(old(procs)[i], g)]
      ensures l == if FreeLocal(old(procs)[i], 3) == LOCALS then -1 else FreeLocal(old(procs)[i], 3)
    {
      var k := 3;
      while k < LOCALS
        invariant 3 <= k <= LOCALS && FreeLocal(procs[i], 3) == FreeLocal(procs[i], k) && procs == old(procs)
      {
        if procs[i][k] == NONE {
          procs := procs[i := procs[i][k := g]];
          return k;
        }
        k := k + 1;
      }
      assert procs == procs[i := procs[i]];
      l := -1;
    }

    /** sys_pipe by process i; false where the kernel has no slot to give. */
    method SysPipe(i: nat) returns (ok: bool, r: int, w: int)
      requires WellFormed(S()) && i < |procs|
      modifies this
      ensures S() == Pipe(old(S()), i) && ok == (FreeSlot(old(files), 3) < SLOTS)
      ensures Law(old(S())) ==> (Law(S()) <==> !ok || (r != -1 && w != -1))
      ensures ok && r != -1 && w != -1 ==>
        3 <= r < w < LOCALS && procs[i][r] == procs[i][w] && 3 <= procs[i][r] < SLOTS && files[procs[i][r]].pipe
    {
      hide Law, Uses;
      ghost var s := S();
      var g := GetFreeSlot();
      r, w := -1, -1;
      if g == SLOTS {
        return false, r, w;
      }
      files := files[g := File(true, true, 2)];
      r := PcbFdInstall(i, g);
      w := PcbFdInstall(i, g);
      InstallPlaces(s.procs[i], g);
      if Law(s) { PipeExact(s, i); }
      ok := true;
    }

    method SysClose(i: nat, l: nat) returns (ok: bool)
      requires WellFormed(S()) && i < |procs| && l < LOCALS
      modifies this
      ensures S() == Close(old(S()), i, l)
      ensures Law(old(S())) ==>
        (Law(S()) <==> Safe(old(S()), AClose(i, l))) && (PipeLaw(S()) <==> PipeSafe(old(S()), AClose(i, l)))
      ensures ok <==> 2 <= l && 0 <= old(procs)[i][l] < SLOTS
    {
      hide Law, PipeLaw, Safe, PipeSafe;
      ghost var s := S();
      if Law(s) {
        CloseExact(s, i, l);
        PipeLawExact(s, AClose(i, l));
      }
      if l < 2 { return false; }
      var g := procs[i][l];
      if !(0 <= g < SLOTS) { return false; }
      if files[g].pipe {
        var pos := if files[g].pos == 0 then 0xFFFF_FFFF else files[g].pos - 1;
        files := files[g := files[g].(pos := pos)];
        if pos == 0 { files := files[g := files[g].(used := false)]; }
      } else {
        files := files[g := files[g].(used := false)];
      }
      procs := procs[i := procs[i][l := NONE]];
      assert files == s.files[g := Closed(s.files[g])];
      ok := true;
    }

    /** The loop of release_prog_resource, and the process leaves. */
    method ExitDescriptors(i: nat)
      requires Law(S()) && i < |procs|
      modifies this
      ensures S() == Exit(old(S()), i) && Law(S())
    {
      hide Law;
      LawShape(S());
      ghost var s := S();
      ExitKeeps(s, i);
      var l := 3;
      while l < LOCALS
        invariant 3 <= l <= LOCALS && WellFormed(S()) && |procs| == |s.procs|
        invariant CloseFrom(s, i, 3) == CloseFrom(S(), i, l)
      {
        if procs[i][l] != NONE { var _ := SysClose(i, l); }
        l := l + 1;
      }
      procs := procs[..i] + procs[i + 1..];
    }

    /** The descriptors of a new process: a copy of the table, and the counts of its pipes go up. */
    method ForkDescriptors(i: nat)
      requires Law(S()) && i < |procs|
      modifies this
      ensures S() == Fork(old(S()), i) && (Law(S()) <==> Safe(old(S()), AFork(i))) && PipeLaw(S())
    {
      hide Law, PipeLaw, Shared, Safe;
      LawShape(S());
      ghost var s := S();
      ForkExact(s, i);
      ForkPipes(s, i);
      var l := 3;
      while l < LOCALS
        invariant 3 <= l <= LOCALS && |files| == SLOTS && procs == s.procs
        invariant Shared(s.files, s.procs[i], 3) == Shared(files, s.procs[i], l)
      {
        SharedStep(files, procs[i], l);
        var g := procs[i][l];
        if 0 <= g < SLOTS && files[g].pipe { files := files[g := files[g].(pos := files[g].pos + 1)]; }
        l := l + 1;
      }
      SharedStep(files, procs[i], l);
      procs := procs + [procs[i]];
    }

    method SysFdRedirect(i: nat, old_fd: nat, new_fd: nat)
      requires Law(S()) && i < |procs| && old_fd < LOCALS && new_fd < LOCALS
      modifies this`procs
      ensures S() == Redirect(old(S()), i, old_fd, new_fd)
      ensures i < |procs| && |procs[i]| == LOCALS
      ensures new_fd >= 3 ==> procs[i][old_fd] == old(procs)[i][new_fd]
      ensures new_fd < 3 ==> procs[i][old_fd] == new_fd
      ensures Law(S()) <==> Safe(old(S()), ARedirect(i, old_fd, new_fd))
      ensures PipeLaw(S()) <==> PipeSafe(old(S()), ARedirect(i, old_fd, new_fd))
    {
      hide Law, PipeLaw, Safe, PipeSafe;
      LawShape(S());
      RedirectExact(S(), i, old_fd, new_fd);
      PipeLawExact(S(), ARedirect(i, old_fd, new_fd));
      if new_fd < 3 {
        procs := procs[i := procs[i][old_fd := new_fd]];
      } else {
        procs := procs[i := procs[i][old_fd := procs[i][new_fd]]];
      }
    }
  }

  /** The two descriptors of a new pipe are the first two free ones. */
  lemma InstallPlaces(t: seq<int>, g: int)
    requires |t| == LOCALS && 3 <= g
    ensures var r, w := FreeLocal(t, 3), FreeLocal(Install(t, g), 3);
      && (r < LOCALS && w < LOCALS <==> Uses(t, NONE) >= 2)
      && (r < LOCALS && w < LOCALS ==> r < w && Install(Install(t, g), g)[r] == g && Install(Install(t, g), g)[w] == g)
  {
    hide Uses;
    InstallUses(t, g, NONE);
    InstallUses(Install(t, g), g, NONE);
  }
}

/**
 Where reads and writes on a descriptor go, what each call moves, and a whole pipeline of the shell.
 */
module Routes {
  import opened Descriptors

  datatype Route = Console | Keyboard | Piped(g: nat) | Opened(g: nat) | Stops

  /** sys_write: a pipe first, then standard output, then a file; an empty descriptor fails an assertion. */
  function WriteRoute(s: State, i: nat, l: nat): Route
    requires WellFormed(s) && i < |s.procs| && l < LOCALS
  {
    var g := s.procs[i][l];
    if !(0 <= g < SLOTS) then Stops
    else if s.files[g].pipe then Piped(g)
    else if l == 1 then Console
    else Opened(g)
  }

  /** sys_read: a pipe first, then standard input, then a file. */
  function ReadRoute(s: State, i: nat, l: nat): Route
    requires WellFormed(s) && i < |s.procs| && l < LOCALS
  {
    var g := s.procs[i][l];
    if !(0 <= g < SLOTS) then Stops
    else if s.files[g].pipe then Piped(g)
    else if l == 0 then Keyboard
    else Opened(g)
  }

  /** The three standard slots are never pipes. */
  predicate LowPlain(s: State) {
    WellFormed(s) && forall g :: 0 <= g < 3 ==> !s.files[g].pipe
  }

  lemma LowPlainStep(s: State, a: Action)
    requires LowPlain(s) && Enabled(s, a)
    ensures LowPlain(Step(s, a))
  {
    hide Shared, CloseFrom;
    match a
    case AFork(i) => forall g | 0 <= g < 3 ensures !Step(s, a).files[g].pipe { SharedAt(s.files, s.procs[i], 3, g); }
    case AExit(i) =>
      CloseFromOther(s, i, 3);
      forall g | 0 <= g < 3 ensures !Step(s, a).files[g].pipe { CloseFromAt(s, i, 3, g); }
    case _ =>
  }

  // ---------------------------------------------------------------- redirect

  /**
   After a redirect the descriptor names the slot that the new one named, or the standard slot of that number; no other
   descriptor and no slot has moved. Where the new one led to a pipe, the redirected one leads to the same pipe.
   */
  lemma RedirectNames(s: State, i: nat, old_fd: nat, new_fd: nat)
    requires WellFormed(s) && i < |s.procs| && old_fd < LOCALS && new_fd < LOCALS
    ensures var d := Redirect(s, i, old_fd, new_fd); WellFormed(d) && d.files == s.files && |d.procs| == |s.procs|
    ensures var d := Redirect(s, i, old_fd, new_fd);
      forall j, l :: 0 <= j < |s.procs| && 0 <= l < LOCALS && (j != i || l != old_fd) ==> d.procs[j][l] == s.procs[j][l]
    ensures var d := Redirect(s, i, old_fd, new_fd);
      && (new_fd >= 3 ==> d.procs[i][old_fd] == s.procs[i][new_fd])
      && (new_fd < 3 ==> d.procs[i][old_fd] == new_fd)
    ensures var d := Redirect(s, i, old_fd, new_fd);
      new_fd >= 3 && WriteRoute(s, i, new_fd).Piped? ==>
        WriteRoute(d, i, old_fd) == ReadRoute(d, i, old_fd) == WriteRoute(s, i, new_fd)
  {
  }

  /**
   Redirecting standard output leads writes to a pipe, or back to the console, but never to a regular file: sys_write
   takes the console first.
   */
  lemma RedirectOutput(s: State, i: nat, new_fd: nat)
    requires LowPlain(s) && i < |s.procs| && new_fd < LOCALS
    ensures WellFormed(Redirect(s, i, 1, new_fd))
    ensures WriteRoute(Redirect(s, i, 1, new_fd), i, 1) ==
      if new_fd < 3 then Console
      else match WriteRoute(s, i, new_fd)
           case Opened(_) => Console
           case r => r
  {
  }

  // ---------------------------------------------------------------- fork

  /** The child's descriptors lead where the parent's lead, those below 3 too, and everybody's lead where they did. */
  lemma ForkRoutes(s: State, i: nat, l: nat)
    requires WellFormed(s) && i < |s.procs| && l < LOCALS
    ensures var d := Fork(s, i); WellFormed(d) && |d.procs| == |s.procs| + 1
    ensures var d := Fork(s, i);
      d.procs[|s.procs|][l] == s.procs[i][l]
      && WriteRoute(d, |s.procs|, l) == WriteRoute(s, i, l) && ReadRoute(d, |s.procs|, l) == ReadRoute(s, i, l)
    ensures var d := Fork(s, i);
      forall j :: 0 <= j < |s.procs| ==>
        && d.procs[j] == s.procs[j]
        && WriteRoute(d, j, l) == WriteRoute(s, j, l) && ReadRoute(d, j, l) == ReadRoute(s, j, l)
  {
    hide Shared;
    forall g | 0 <= g < SLOTS ensures Fork(s, i).files[g].pipe == s.files[g].pipe {
      SharedAt(s.files, s.procs[i], 3, g);
    }
  }

  // ---------------------------------------------------------------- what moves

  /** A call touches only the table of its caller; exit takes that table away. */
  lemma OthersTables(s: State, a: Action, j: nat)
    requires Enabled(s, a) && j < |s.procs| && j != a.i
    ensures var k := if a.AExit? && a.i < j then j - 1 else j;
      k < |Step(s, a).procs| && Step(s, a).procs[k] == s.procs[j]
  {
    hide CloseFrom;
    if a.AExit? { CloseFromOther(s, a.i, 3); }
  }

  /** Of its own table a call moves only empty descriptors from 3 up, or the one it is given, which close empties. */
  lemma OwnTable(s: State, a: Action, l: nat)
    requires Enabled(s, a) && l < LOCALS && !a.AExit?
    ensures a.i < |Step(s, a).procs| && |Step(s, a).procs[a.i]| == LOCALS
    ensures Step(s, a).procs[a.i][l] != s.procs[a.i][l] ==>
      || ((a.AOpen? || a.APipe?) && l >= 3 && s.procs[a.i][l] == NONE
          && Step(s, a).procs[a.i][l] == FreeSlot(s.files, 3))
      || (a.AClose? && l == a.l >= 2 && Step(s, a).procs[a.i][l] == NONE)
      || (a.ARedirect? && l == a.old_fd)
    ensures a.AClose? && a.l >= 2 && 0 <= s.procs[a.i][a.l] < SLOTS ==> Step(s, a).procs[a.i][a.l] == NONE
  {
  }

  /** A slot moves only if it was free and is taken, or a descriptor of the caller names it. */
  lemma SlotMoves(s: State, a: Action, g: nat)
    requires Enabled(s, a) && g < SLOTS
    ensures |Step(s, a).files| == SLOTS
    ensures Step(s, a).files[g] != s.files[g] ==>
      || ((a.AOpen? || a.APipe?) && g == FreeSlot(s.files, 3))
      || (a.AClose? && a.l >= 2 && s.procs[a.i][a.l] == g)
      || ((a.AExit? || a.AFork?) && exists l :: 3 <= l < LOCALS && s.procs[a.i][l] == g)
  {
    hide CloseFrom, Shared;
    match a
    case AFork(i) =>
      SharedAt(s.files, s.procs[i], 3, g);
      if forall l :: 3 <= l < LOCALS ==> s.procs[i][l] != g { NoneFrom(s.procs[i], 3, g); }
    case AExit(i) =>
      CloseFromAt(s, i, 3, g);
      if forall l :: 3 <= l < LOCALS ==> s.procs[i][l] != g { NoneFrom(s.procs[i], 3, g); }
    case _ =>
  }

  lemma {:induction false} NoneFrom(t: seq<int>, l: nat, g: int)
    requires |t| == LOCALS && 3 <= l <= LOCALS
    ensures UsesFrom(t, l, g) == 0 <==> forall k :: l <= k < LOCALS ==> t[k] != g
    decreases LOCALS - l
  {
    if l < LOCALS { NoneFrom(t, l + 1, g); }
  }

  lemma {:induction false} CloseFromOther(s: State, i: nat, l: nat)
    requires WellFormed(s) && i < |s.procs| && 3 <= l <= LOCALS
    ensures forall j :: 0 <= j < |s.procs| && j != i ==> CloseFrom(s, i, l).procs[j] == s.procs[j]
    decreases LOCALS - l
  {
    if l < LOCALS { CloseFromOther(if s.procs[i][l] != NONE then Close(s, i, l) else s, i, l + 1); }
  }

  /** What the closing loop leaves of a slot: untouched without descriptors; a pipe counts them down. */
  lemma {:induction false} CloseFromAt(s: State, i: nat, l: nat, g: nat)
    requires WellFormed(s) && i < |s.procs| && 3 <= l <= LOCALS && g < SLOTS
    ensures var n, f := UsesFrom(s.procs[i], l, g), CloseFrom(s, i, l).files[g];
      && f.pipe == s.files[g].pipe && (n == 0 ==> f == s.files[g]) && (!s.files[g].used ==> !f.used)
      && (s.files[g].pipe && s.files[g].pos > n ==> f == s.files[g].(pos := s.files[g].pos - n))
      && (!s.files[g].pipe && n > 0 ==> !f.used)
    decreases LOCALS - l
  {
    if l < LOCALS {
      var next := if s.procs[i][l] != NONE then Close(s, i, l) else s;
      CloseFromAt(next, i, l + 1, g);
      SameFrom(s.procs[i], next.procs[i], l + 1, g);
      assert CloseFrom(s, i, l) == CloseFrom(next, i, l + 1);
      assert UsesFrom(s.procs[i], l, g) == One(s.procs[i][l] == g) + UsesFrom(s.procs[i], l + 1, g);
    }
  }

  lemma {:induction false} SameFrom(t: seq<int>, u: seq<int>, l: nat, g: int)
    requires |t| == |u| == LOCALS && 3 <= l <= LOCALS && forall k :: l <= k < LOCALS ==> t[k] == u[k]
    ensures UsesFrom(t, l, g) == UsesFrom(u, l, g)
    decreases LOCALS - l
  {
    if l < LOCALS { SameFrom(t, u, l + 1, g); }
  }

  // ---------------------------------------------------------------- fork and exit undo each other

  /** A child that only forks and exits leaves the tables as they were exactly when it shared no regular file. */
  lemma ForkThenExit(s: State, i: nat)
    requires Law(s) && i < |s.procs|
    ensures WellFormed(Fork(s, i))
    ensures Exit(Fork(s, i), |s.procs|) == s <==> Safe(s, AFork(i))
  {
    hide Law, Shared, CloseFrom, Uses, UsesFrom;
    LawShape(s);
    TableFacts(s, i);
    var t, d, n := s.procs[i], Fork(s, i), |s.procs|;
    var r := CloseFrom(d, n, 3);
    CloseFromOther(d, n, 3);
    assert r.procs[..n] + r.procs[n + 1..] == s.procs;
    forall g | 0 <= g < SLOTS
      ensures s.files[g].pipe || UsesFrom(t, 3, g) == 0 ==> r.files[g] == s.files[g]
      ensures !s.files[g].pipe && UsesFrom(t, 3, g) > 0 ==> !r.files[g].used
    {
      SharedAt(s.files, t, 3, g);
      CloseFromAt(d, n, 3, g);
      UsesFromAll(t, g);
      if s.files[g].pipe && s.files[g].used { PipeCounted(s, g); }
    }
    if Safe(s, AFork(i)) {
      forall g | 0 <= g < SLOTS ensures r.files[g] == s.files[g] { NoneFrom(t, 3, g); }
      assert r.files == s.files;
    } else {
      var l :| 3 <= l < LOCALS && 0 <= t[l] < SLOTS && !s.files[t[l]].pipe;
      NoneFrom(t, 3, t[l]);
      assert EntryOk(s.files, t[l]);
    }
  }

  lemma PipeCounted(s: State, g: nat)
    requires Law(s) && g < SLOTS && s.files[g].pipe && s.files[g].used
    ensures 0 < s.files[g].pos
  {
    hide Uses;
    assert 3 <= g && SlotOk(s.files[g], Total(s.procs, g));
  }

  // ---------------------------------------------------------------- a pipeline of the shell

  /** The two descriptors that sys_pipe returns. */
  function ReadEnd(s: State, i: nat): nat
    requires WellFormed(s) && i < |s.procs|
  {
    FreeLocal(s.procs[i], 3)
  }

  function WriteEnd(s: State, i: nat): nat
    requires WellFormed(s) && i < |s.procs|
  {
    FreeLocal(Install(s.procs[i], FreeSlot(s.files, 3)), 3)
  }

  /** The shell's table when the first command of `a | b` is forked, when the second is, and at the end. */
  function ForFirst(s: State, i: nat): State
    requires WellFormed(s) && i < |s.procs| && WriteEnd(s, i) < LOCALS
  {
    Redirect(Pipe(s, i), i, 1, WriteEnd(s, i))
  }

  function ForSecond(s: State, i: nat): State
    requires WellFormed(s) && i < |s.procs| && ReadEnd(s, i) < LOCALS && WriteEnd(s, i) < LOCALS
  {
    Redirect(Redirect(ForFirst(s, i), i, 0, ReadEnd(s, i)), i, 1, 1)
  }

  function AtEnd(s: State, i: nat): State
    requires WellFormed(s) && i < |s.procs| && ReadEnd(s, i) < LOCALS && WriteEnd(s, i) < LOCALS
  {
    Close(Close(Redirect(ForSecond(s, i), i, 0, 0), i, ReadEnd(s, i)), i, WriteEnd(s, i))
  }

  /** A shell with standard input and output in place, no regular file open, and room for a pipe. */
  predicate ShellReady(s: State, i: nat) {
    && LowPlain(s) && i < |s.procs| && s.procs[i][0] == 0 && s.procs[i][1] == 1
    && FreeSlot(s.files, 3) < SLOTS && ReadEnd(s, i) < LOCALS && WriteEnd(s, i) < LOCALS
    && Safe(s, AFork(i))
  }

  /**
   `a | b`: the first command writes to the pipe and reads the keyboard, the second reads that pipe and writes to the
   console. Each exits before the shell goes on and leaves no trace, and at the end the shell's descriptors are what
   they were and the pipe is free.
   */
  lemma Pipeline(s: State, i: nat)
    requires Law(s) && ShellReady(s, i)
    ensures var g, a, n := FreeSlot(s.files, 3), ForFirst(s, i), |s.procs|;
      && WellFormed(a) && |a.procs| == n && WellFormed(Fork(a, i)) && |Fork(a, i).procs| == n + 1
      && WriteRoute(Fork(a, i), n, 1) == Piped(g) && ReadRoute(Fork(a, i), n, 0) == Keyboard
      && Exit(Fork(a, i), n) == a
    ensures var g, b, n := FreeSlot(s.files, 3), ForSecond(s, i), |s.procs|;
      && WellFormed(b) && |b.procs| == n && WellFormed(Fork(b, i)) && |Fork(b, i).procs| == n + 1
      && ReadRoute(Fork(b, i), n, 0) == Piped(g) && WriteRoute(Fork(b, i), n, 1) == Console
      && Exit(Fork(b, i), n) == b
    ensures AtEnd(s, i).procs == s.procs
    ensures AtEnd(s, i).files == s.files[FreeSlot(s.files, 3) := File(false, true, 0)]
    ensures Law(AtEnd(s, i))
  {
    hide Law, Fork, Exit, Uses, Install, FreeLocal, FreeSlot;
    var g, p := FreeSlot(s.files, 3), Pipe(s, i);
    PipeOpened(s, i);
    var a, b := ForFirst(s, i), ForSecond(s, i);
    assert p.procs[i][0] == 0 && p.procs[i][1] == 1;
    RedirectExact(p, i, 1, WriteEnd(s, i));
    var a1 := Redirect(a, i, 0, ReadEnd(s, i));
    RedirectExact(a, i, 0, ReadEnd(s, i));
    RedirectExact(a1, i, 1, 1);
    StillPipes(s, p, a, b, i);
    Forked(a, i);
    Forked(b, i);
    Closing(s, p, b, i);
  }

  lemma PipeOpened(s: State, i: nat)
    requires Law(s) && ShellReady(s, i)
    ensures var g, p, r, w := FreeSlot(s.files, 3), Pipe(s, i), ReadEnd(s, i), WriteEnd(s, i);
      && 3 <= g < SLOTS && !s.files[g].used && 3 <= r < w < LOCALS && s.procs[i][r] == s.procs[i][w] == NONE
      && p == State(s.files[g := File(true, true, 2)], s.procs[i := s.procs[i][r := g][w := g]]) && Law(p)
  {
    hide Law, Uses;
    LawShape(s);
    PipeExact(s, i);
    InstallPlaces(s.procs[i], FreeSlot(s.files, 3));
  }

  lemma StillPipes(s: State, p: State, a: State, b: State, i: nat)
    requires ShellReady(s, i) && WellFormed(p) && p == Pipe(s, i) && a == ForFirst(s, i) && b == ForSecond(s, i)
    requires WellFormed(a) && WellFormed(b) && |p.procs| == |s.procs|
    requires 3 <= ReadEnd(s, i) < WriteEnd(s, i) < LOCALS && 3 <= FreeSlot(s.files, 3) < SLOTS
    requires p.procs[i] == s.procs[i][ReadEnd(s, i) := FreeSlot(s.files, 3)][WriteEnd(s, i) := FreeSlot(s.files, 3)]
    requires p.files == s.files[FreeSlot(s.files, 3) := File(true, true, 2)]
    ensures Safe(a, AFork(i)) && Safe(b, AFork(i))
    ensures WriteRoute(a, i, 1) == Piped(FreeSlot(s.files, 3)) && ReadRoute(a, i, 0) == Keyboard
    ensures ReadRoute(b, i, 0) == Piped(FreeSlot(s.files, 3)) && WriteRoute(b, i, 1) == Console
  {
    hide FreeLocal, FreeSlot, Install, Pipe;
    var g, r, w := FreeSlot(s.files, 3), ReadEnd(s, i), WriteEnd(s, i);
    var t := p.procs[i];
    assert t[r] == g && t[w] == g;
    assert a.procs[i] == t[1 := g] && a.files == p.files;
    assert b.procs[i] == t[1 := g][0 := g][1 := 1] && b.files == p.files;
    forall l | 3 <= l < LOCALS && 0 <= t[l] < SLOTS ensures p.files[t[l]].pipe {
      assert l != r && l != w ==> t[l] == s.procs[i][l];
    }
  }

  lemma Forked(a: State, i: nat)
    requires Law(a) && i < |a.procs| && Safe(a, AFork(i))
    ensures WellFormed(a) && WellFormed(Fork(a, i)) && |Fork(a, i).procs| == |a.procs| + 1
    ensures Exit(Fork(a, i), |a.procs|) == a
    ensures WriteRoute(Fork(a, i), |a.procs|, 1) == WriteRoute(a, i, 1)
    ensures ReadRoute(Fork(a, i), |a.procs|, 0) == ReadRoute(a, i, 0)
  {
    hide Law, Fork, Exit;
    LawShape(a);
    ForkThenExit(a, i);
    ForkRoutes(a, i, 0);
    ForkRoutes(a, i, 1);
  }

  lemma Closing(s: State, p: State, b: State, i: nat)
    requires Law(s) && ShellReady(s, i) && Law(p) && p == Pipe(s, i) && b == ForSecond(s, i)
    requires var g, r, w := FreeSlot(s.files, 3), ReadEnd(s, i), WriteEnd(s, i);
      && 3 <= g && 3 <= r < w && s.procs[i][r] == s.procs[i][w] == NONE
      && p == State(s.files[g := File(true, true, 2)], s.procs[i := s.procs[i][r := g][w := g]])
    ensures AtEnd(s, i).procs == s.procs
    ensures AtEnd(s, i).files == s.files[FreeSlot(s.files, 3) := File(false, true, 0)]
    ensures Law(AtEnd(s, i))
  {
    hide Law, FreeLocal, FreeSlot, Install, Pipe, Uses;
    var g, r, w, t := FreeSlot(s.files, 3), ReadEnd(s, i), WriteEnd(s, i), s.procs[i];
    var c := Redirect(b, i, 0, 0);
    assert c.procs[i] == t[r := g][w := g];
    assert c.procs == p.procs;
    assert c == p;
    CloseExact(p, i, r);
    var d := Close(p, i, r);
    assert d.procs[i] == t[w := g];
    CloseExact(d, i, w);
    assert AtEnd(s, i) == Close(d, i, w);
    assert AtEnd(s, i).procs[i] == t;
  }
}

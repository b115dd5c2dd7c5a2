/**
 The life cycle of processes: fork, exit, wait and the pid pool, over the list of all threads. A system call
 runs with interrupts off, so each is one step up to where it blocks.
 */
module Process {
  import opened Common
  import opened Bitmap

  /** Live stands for running, ready and blocked. */
  datatype Status = Live | Waiting | Hanging

  /**
   `uid` tells records apart for ever, and `maker` is the uid of the process that forked this one; the kernel has
   neither.
   */
  datatype Proc = Proc(uid: nat, pid: int, parent: int, status: Status, exit: int, user: bool, maker: nat)

  /**
   The list of all threads in order and the pid bitmap. The rest is history: the uids of processes that called exit
   and of those reaped, and the pids that a failed fork took and never gave back.
   */
  datatype State = State(procs: seq<Proc>, bits: seq<bool>, next: nat, exited: set<nat>, reaped: seq<nat>,
    lost: set<int>)

  const INIT: int := 1

  /** exit_status is one signed byte. */
  function Int8(x: int): (r: int)
    ensures -128 <= r < 128 && (r - x) % 256 == 0
  {
    var b := x % 256;
    if b < 128 then b else b - 256
  }

  // ---------------------------------------------------------------- searches through the list

  /** pid2thread. */
  function FindPid(q: seq<Proc>, pid: int): (k: nat)
    ensures k <= |q| && (k < |q| ==> q[k].pid == pid) && forall i :: 0 <= i < k ==> q[i].pid != pid
  {
    if q == [] || q[0].pid == pid then 0
    else var k := FindPid(q[1..], pid); assert forall i :: 1 <= i < |q| ==> q[i] == q[1..][i - 1]; k + 1
  }

  predicate HangsFor(p: Proc, pid: int) { p.parent == pid && p.status.Hanging? }

  /** The first child of pid in the list that is hanging. */
  function FindHanging(q: seq<Proc>, pid: int): (k: nat)
    ensures k <= |q| && (k < |q| ==> HangsFor(q[k], pid)) && forall i :: 0 <= i < k ==> !HangsFor(q[i], pid)
  {
    if q == [] || HangsFor(q[0], pid) then 0
    else var k := FindHanging(q[1..], pid); assert forall i :: 1 <= i < |q| ==> q[i] == q[1..][i - 1]; k + 1
  }

  function Adopt(p: Proc, pid: int): Proc { if p.parent == pid then p.(parent := INIT) else p }

  function Adopted(q: seq<Proc>, pid: int): (r: seq<Proc>)
    ensures |r| == |q| && forall i :: 0 <= i < |q| ==> r[i] == Adopt(q[i], pid)
  {
    seq(|q|, i requires 0 <= i < |q| => Adopt(q[i], pid))
  }

  function FirstClear(bits: seq<bool>): (k: nat)
    ensures k <= |bits| && (k < |bits| ==> !bits[k]) && forall i :: 0 <= i < k ==> bits[i]
  {
    if bits == [] || !bits[0] then 0
    else var k := FirstClear(bits[1..]); assert forall i :: 1 <= i < |bits| ==> bits[i] == bits[1..][i - 1]; k + 1
  }

  // ---------------------------------------------------------------- the steps

  /** How far the memory for a fork reaches; without a page directory the pid is already taken. */
  datatype Memory = Enough | NoPcb | NoPageDir

  /** A new process or thread at the end of the list, with the least free pid. */
  function Append(s: State, parent: int, exit: int, user: bool, maker: nat): State
    requires FirstClear(s.bits) < |s.bits|
  {
    var b := FirstClear(s.bits);
    s.(procs := s.procs + [Proc(s.next, b + 1, parent, Live, exit, user, maker)], bits := s.bits[b := true],
      next := s.next + 1)
  }

  function Fork(s: State, i: nat, mem: Memory): State
    requires i < |s.procs| && FirstClear(s.bits) < |s.bits|
  {
    match mem
    case NoPcb => s
    case NoPageDir => s.(bits := s.bits[FirstClear(s.bits) := true], lost := s.lost + {FirstClear(s.bits) + 1})
    case Enough => Append(s, s.procs[i].pid, s.procs[i].exit, true, s.procs[i].uid)
  }

  /** The list after the caller's children were adopted, its parent woken and the caller suspended. */
  function AfterExit(q: seq<Proc>, i: nat, status: int): (r: seq<Proc>)
    requires i < |q|
    ensures |r| == |q|
  {
    var a := Adopted(q[i := q[i].(exit := Int8(status))], q[i].pid);
    var k := FindPid(a, a[i].parent);
    var w := if k < |a| && a[k].status.Waiting? then a[k := a[k].(status := Live)] else a;
    w[i := w[i].(status := Hanging)]
  }

  function Exit(s: State, i: nat, status: int): State
    requires i < |s.procs|
  {
    s.(procs := AfterExit(s.procs, i, status), exited := s.exited + {s.procs[i].uid})
  }

  /** thread_exit of the thread at position k: it leaves the list and its pid is free. */
  function Remove(s: State, k: nat): State
    requires k < |s.procs| && 1 <= s.procs[k].pid <= |s.bits|
  {
    s.(procs := s.procs[..k] + s.procs[k + 1..], bits := s.bits[s.procs[k].pid - 1 := false])
  }

  /**
   One pass of sys_wait: reap the first hanging child, or wait. The test for children looks for the caller's own pid.
   */
  function Wait(s: State, i: nat): State
    requires i < |s.procs| && forall k :: 0 <= k < |s.procs| ==> 1 <= s.procs[k].pid <= |s.bits|
  {
    var k := FindHanging(s.procs, s.procs[i].pid);
    if k < |s.procs| then Remove(s, k).(reaped := s.reaped + [s.procs[k].uid])
    else if FindPid(s.procs, s.procs[i].pid) == |s.procs| then s
    else s.(procs := s.procs[i := s.procs[i].(status := Waiting)])
  }

  datatype Action =
    | AFork(i: nat, mem: Memory)
    | ASpawn(user: bool)
    | AExit(i: nat, status: int)
    | AWait(i: nat)
    | AEnd(i: nat)          // a kernel thread calls thread_exit on itself

  /** What a process may do: only user processes fork and exit, init never exits, a kernel thread ends. */
  predicate Enabled(s: State, a: Action) {
    match a
    case AFork(i, _) => i < |s.procs| && s.procs[i].status.Live? && s.procs[i].user && FirstClear(s.bits) < |s.bits|
    case ASpawn(_) => FirstClear(s.bits) < |s.bits|
    case AExit(i, _) => i < |s.procs| && s.procs[i].status.Live? && s.procs[i].user && s.procs[i].pid != INIT
    case AWait(i) => i < |s.procs| && s.procs[i].status.Live? && forall k :: 0 <= k < |s.procs| ==>
      1 <= s.procs[k].pid <= |s.bits|
    case AEnd(i) => i < |s.procs| && s.procs[i].status.Live? && !s.procs[i].user && 1 <= s.procs[i].pid <= |s.bits|
  }

  function Step(s: State, a: Action): State {
    if !Enabled(s, a) then s else
      match a
      case AFork(i, mem) => Fork(s, i, mem)
      case ASpawn(user) => Append(s, -1, 0, user, s.next)
      case AExit(i, status) => Exit(s, i, status)
      case AWait(i) => Wait(s, i)
      case AEnd(i) => Remove(s, i)
  }

  function Run(s: State, acts: seq<Action>): State {
    if acts == [] then s else Step(Run(s, acts[..|acts| - 1]), acts[|acts| - 1])
  }

  // ---------------------------------------------------------------- the invariant

  ghost predicate HasPid(s: State, pid: int) {
    exists k :: 0 <= k < |s.procs| && s.procs[k].pid == pid
  }

  /** Pids are distinct, and the pool's bits are exactly the pids in the list and the lost ones. */
  ghost predicate PidsOk(s: State) {
    && (forall i, j :: 0 <= i < j < |s.procs| ==> s.procs[i].pid != s.procs[j].pid)
    && (forall pid :: HasPid(s, pid) || pid in s.lost <==> 1 <= pid <= |s.bits| && s.bits[pid - 1])
    && (forall pid :: HasPid(s, pid) ==> pid !in s.lost)
  }

  /** The thread at j is the parent that i's record names: alive, and the one that forked i or else init. */
  predicate IsParent(s: State, i: int, j: int) {
    && 0 <= i < |s.procs| && 0 <= j < |s.procs| && i != j && s.procs[j].pid == s.procs[i].parent
    && !s.procs[j].status.Hanging? && s.procs[j].user
    && (s.procs[j].uid == s.procs[i].maker || s.procs[j].pid == INIT)
  }

  ghost predicate ParentsOk(s: State) {
    forall i :: 0 <= i < |s.procs| && s.procs[i].parent != -1 ==> exists j :: IsParent(s, i, j)
  }

  predicate IsInit(p: Proc) { p.pid == INIT && p.user && !p.status.Hanging? && p.parent == -1 }

  ghost predicate InitOk(s: State) {
    exists k :: 0 <= k < |s.procs| && IsInit(s.procs[k])
  }

  /** No process but init waits while a child of its hangs. */
  ghost predicate WaitOk(s: State) {
    forall i, j :: 0 <= i < |s.procs| && 0 <= j < |s.procs| && s.procs[j].status.Waiting? && s.procs[j].pid != INIT
      ==> !HangsFor(s.procs[i], s.procs[j].pid)
  }

  ghost predicate HasUid(s: State, uid: nat) {
    exists k :: 0 <= k < |s.procs| && s.procs[k].uid == uid
  }

  ghost predicate Zombie(s: State, uid: nat) {
    exists k :: 0 <= k < |s.procs| && s.procs[k].uid == uid && s.procs[k].status.Hanging?
  }

  /** Whoever exited is hanging in the list or was reaped, once. */
  ghost predicate HistoryOk(s: State) {
    && (forall i, j :: 0 <= i < j < |s.procs| ==> s.procs[i].uid != s.procs[j].uid)
    && (forall uid: nat :: HasUid(s, uid) ==> uid < s.next)
    && (forall uid :: uid in s.reaped ==> uid < s.next && !HasUid(s, uid))
    && (forall i, j :: 0 <= i < j < |s.reaped| ==> s.reaped[i] != s.reaped[j])
    && (forall uid :: uid in s.exited <==> uid in s.reaped || Zombie(s, uid))
  }

  ghost predicate Inv(s: State) {
    PidsOk(s) && ParentsOk(s) && InitOk(s) && WaitOk(s) && HistoryOk(s)
  }

  // ---------------------------------------------------------------- adding a thread

  lemma AppendPids(s: State, parent: int, exit: int, user: bool, maker: nat)
    requires PidsOk(s) && FirstClear(s.bits) < |s.bits|
    ensures PidsOk(Append(s, parent, exit, user, maker)) && !HasPid(s, FirstClear(s.bits) + 1)
  {
    var d := Append(s, parent, exit, user, maker);
    var n := FirstClear(s.bits) + 1;
    assert !HasPid(s, n);
    forall pid ensures HasPid(d, pid) <==> HasPid(s, pid) || pid == n {
      if k :| 0 <= k < |s.procs| && s.procs[k].pid == pid { assert d.procs[k].pid == pid; }
      assert d.procs[|s.procs|].pid == n;
    }
  }

  lemma AppendRest(s: State, parent: int, exit: int, user: bool, maker: nat)
    requires Inv(s) && FirstClear(s.bits) < |s.bits|
    requires parent == -1 || exists j :: 0 <= j < |s.procs| && s.procs[j].pid == parent && s.procs[j].uid == maker
                                         && s.procs[j].user && !s.procs[j].status.Hanging?
    ensures var d := Append(s, parent, exit, user, maker); ParentsOk(d) && InitOk(d)
  {
    var d := Append(s, parent, exit, user, maker);
    forall i | 0 <= i < |d.procs| && d.procs[i].parent != -1 ensures exists j :: IsParent(d, i, j) {
      if i < |s.procs| {
        var j :| IsParent(s, i, j);
        assert IsParent(d, i, j);
      } else {
        var j :| 0 <= j < |s.procs| && s.procs[j].pid == parent && s.procs[j].uid == maker && s.procs[j].user
          && !s.procs[j].status.Hanging?;
        assert IsParent(d, i, j);
      }
    }
    var k :| 0 <= k < |s.procs| && IsInit(s.procs[k]);
    assert IsInit(d.procs[k]);
  }

  /** No thread in the list names a pid that is free, so the new owner of a pid starts without children. */
  lemma FreePidChildless(s: State, pid: int)
    requires Inv(s) && pid != -1 && !HasPid(s, pid)
    ensures forall i :: 0 <= i < |s.procs| ==> s.procs[i].parent != pid
  {
    forall i | 0 <= i < |s.procs| ensures s.procs[i].parent != pid {
      if s.procs[i].parent != -1 {
        var j :| IsParent(s, i, j);
        assert HasPid(s, s.procs[j].pid);
      }
    }
  }

  lemma AppendHistory(s: State, parent: int, exit: int, user: bool, maker: nat)
    requires HistoryOk(s) && FirstClear(s.bits) < |s.bits|
    ensures HistoryOk(Append(s, parent, exit, user, maker))
  {
    var d := Append(s, parent, exit, user, maker);
    assert forall k :: 0 <= k < |s.procs| ==> HasUid(s, s.procs[k].uid) && d.procs[k] == s.procs[k];
    forall uid ensures HasUid(d, uid) <==> HasUid(s, uid) || uid == s.next {
      if k :| 0 <= k < |s.procs| && s.procs[k].uid == uid { assert d.procs[k].uid == uid; }
      assert d.procs[|s.procs|].uid == s.next;
    }
    forall uid ensures Zombie(d, uid) <==> Zombie(s, uid) {
      if k :| 0 <= k < |s.procs| && s.procs[k].uid == uid && s.procs[k].status.Hanging? {
        assert d.procs[k].uid == uid;
      }
    }
  }

  lemma AppendKeeps(s: State, parent: int, exit: int, user: bool, maker: nat)
    requires Inv(s) && FirstClear(s.bits) < |s.bits|
    requires parent == -1 || exists j :: 0 <= j < |s.procs| && s.procs[j].pid == parent && s.procs[j].uid == maker
                                         && s.procs[j].user && !s.procs[j].status.Hanging?
    ensures Inv(Append(s, parent, exit, user, maker))
  {
    hide PidsOk, HistoryOk;
    AppendPids(s, parent, exit, user, maker);
    AppendRest(s, parent, exit, user, maker);
    AppendHistory(s, parent, exit, user, maker);
    FreePidChildless(s, FirstClear(s.bits) + 1);
  }

  lemma LostKeeps(s: State)
    requires Inv(s) && FirstClear(s.bits) < |s.bits|
    ensures Inv(s.(bits := s.bits[FirstClear(s.bits) := true], lost := s.lost + {FirstClear(s.bits) + 1}))
  {
    hide HistoryOk;
    var n := FirstClear(s.bits) + 1;
    var d := s.(bits := s.bits[n - 1 := true], lost := s.lost + {n});
    assert forall pid :: HasPid(d, pid) == HasPid(s, pid);
    assert forall i, j :: IsParent(d, i, j) == IsParent(s, i, j);
    SameHistory(s, d);
  }

  lemma SameHistory(s: State, d: State)
    requires HistoryOk(s) && d.procs == s.procs && d.next == s.next && d.reaped == s.reaped && d.exited == s.exited
    ensures HistoryOk(d)
  {
    assert forall uid :: HasUid(d, uid) == HasUid(s, uid) && Zombie(d, uid) == Zombie(s, uid);
  }

  // ---------------------------------------------------------------- exit

  /** What exit does to each record in the list. */
  function ExitOne(p: Proc, me: Proc, status: int, self: bool): Proc {
    var q := Adopt(p, me.pid);
    if self then q.(status := Hanging, exit := Int8(status))
    else if p.status.Waiting? && p.pid == Adopt(me, me.pid).parent then q.(status := Live) else q
  }

  lemma AfterExitAt(s: State, i: nat, status: int, k: nat)
    requires PidsOk(s) && i < |s.procs| && k < |s.procs|
    ensures AfterExit(s.procs, i, status)[k] == ExitOne(s.procs[k], s.procs[i], status, k == i)
  {
    var q := s.procs;
    var a := Adopted(q[i := q[i].(exit := Int8(status))], q[i].pid);
    assert forall m :: 0 <= m < |q| ==> a[m].pid == q[m].pid;
    var w := FindPid(a, a[i].parent);
    if w < |a| && k != w { assert q[k].pid != q[w].pid; }
  }

  lemma ExitParents(s: State, i: nat, status: int)
    requires Inv(s) && i < |s.procs| && s.procs[i].pid != INIT
    ensures ParentsOk(Exit(s, i, status)) && InitOk(Exit(s, i, status))
  {
    hide AfterExit, HistoryOk, WaitOk;
    InvPidRange(s, i);
    var d := Exit(s, i, status);
    var z :| 0 <= z < |s.procs| && IsInit(s.procs[z]);
    AfterExitAt(s, i, status, z);
    assert IsInit(d.procs[z]);
    forall k | 0 <= k < |d.procs| && d.procs[k].parent != -1 ensures exists j :: IsParent(d, k, j) {
      AfterExitAt(s, i, status, k);
      if s.procs[k].parent == s.procs[i].pid {
        assert IsParent(d, k, z);
      } else {
        var j :| IsParent(s, k, j);
        AfterExitAt(s, i, status, j);
        assert IsParent(d, k, j);
      }
    }
  }

  lemma ExitWait(s: State, i: nat, status: int)
    requires Inv(s) && i < |s.procs| && s.procs[i].pid != INIT
    ensures WaitOk(Exit(s, i, status))
  {
    hide AfterExit, HistoryOk, ParentsOk, InitOk;
    var d := Exit(s, i, status);
    forall k, j | 0 <= k < |d.procs| && 0 <= j < |d.procs| && d.procs[j].status.Waiting? && d.procs[j].pid != INIT
      ensures !HangsFor(d.procs[k], d.procs[j].pid)
    {
      AfterExitAt(s, i, status, k);
      AfterExitAt(s, i, status, j);
      assert !HangsFor(s.procs[k], s.procs[j].pid);
    }
  }

  lemma ExitPids(s: State, i: nat, status: int)
    requires PidsOk(s) && i < |s.procs|
    ensures PidsOk(Exit(s, i, status))
  {
    hide AfterExit;
    var d := Exit(s, i, status);
    forall k | 0 <= k < |d.procs| ensures d.procs[k].pid == s.procs[k].pid { AfterExitAt(s, i, status, k); }
    forall pid ensures HasPid(d, pid) == HasPid(s, pid) {
      if k :| 0 <= k < |s.procs| && s.procs[k].pid == pid { assert d.procs[k].pid == pid; }
    }
  }

  lemma ExitHistory(s: State, i: nat, status: int)
    requires PidsOk(s) && HistoryOk(s) && i < |s.procs|
    ensures HistoryOk(Exit(s, i, status))
  {
    hide AfterExit, PidsOk;
    var d := Exit(s, i, status);
    forall k | 0 <= k < |d.procs|
      ensures d.procs[k].uid == s.procs[k].uid && (d.procs[k].status.Hanging? <==> s.procs[k].status.Hanging? || k == i)
    {
      AfterExitAt(s, i, status, k);
    }
    forall uid ensures HasUid(d, uid) == HasUid(s, uid) {
      if k :| 0 <= k < |s.procs| && s.procs[k].uid == uid { assert d.procs[k].uid == uid; }
    }
    forall uid ensures Zombie(d, uid) <==> Zombie(s, uid) || uid == s.procs[i].uid {
      if k :| 0 <= k < |s.procs| && s.procs[k].uid == uid && s.procs[k].status.Hanging? {
        assert d.procs[k].uid == uid;
      }
      assert d.procs[i].uid == s.procs[i].uid;
    }
  }

  lemma ExitKeeps(s: State, i: nat, status: int)
    requires Inv(s) && i < |s.procs| && s.procs[i].pid != INIT
    ensures Inv(Exit(s, i, status))
  {
    hide PidsOk, ParentsOk, InitOk, WaitOk, HistoryOk, Exit;
    ExitPids(s, i, status);
    ExitParents(s, i, status);
    ExitWait(s, i, status);
    ExitHistory(s, i, status);
  }

  // ---------------------------------------------------------------- leaving the list

  /** The position of a thread before the one at k was removed. */
  function Was(k: int, m: int): int { if m < k then m else m + 1 }

  function Now(k: int, m: int): int { if m < k then m else m - 1 }

  lemma RemoveOld(s: State, k: nat, m: int)
    requires k < |s.procs| && 1 <= s.procs[k].pid <= |s.bits| && 0 <= m < |Remove(s, k).procs|
    ensures 0 <= Was(k, m) < |s.procs| && Was(k, m) != k && Remove(s, k).procs[m] == s.procs[Was(k, m)]
  {
  }

  lemma RemoveNew(s: State, k: nat, m: int)
    requires k < |s.procs| && 1 <= s.procs[k].pid <= |s.bits| && 0 <= m < |s.procs| && m != k
    ensures 0 <= Now(k, m) < |Remove(s, k).procs| && Remove(s, k).procs[Now(k, m)] == s.procs[m]
  {
  }

  lemma RemoveFields(s: State, k: nat)
    requires k < |s.procs| && 1 <= s.procs[k].pid <= |s.bits|
    ensures var d := Remove(s, k);
      && d.bits == s.bits[s.procs[k].pid - 1 := false] && d.next == s.next
      && d.exited == s.exited && d.reaped == s.reaped && d.lost == s.lost
  {
  }

  lemma RemoveHasPid(s: State, k: nat, pid: int)
    requires PidsOk(s) && k < |s.procs| && 1 <= s.procs[k].pid <= |s.bits|
    ensures HasPid(Remove(s, k), pid) <==> HasPid(s, pid) && pid != s.procs[k].pid
  {
    hide Remove;
    var d := Remove(s, k);
    if m :| 0 <= m < |d.procs| && d.procs[m].pid == pid {
      RemoveOld(s, k, m);
      assert s.procs[Was(k, m)].pid == pid;
    }
    if m :| 0 <= m < |s.procs| && m != k && s.procs[m].pid == pid { RemoveNew(s, k, m); }
  }

  lemma RemovePids(s: State, k: nat)
    requires PidsOk(s) && k < |s.procs| && 1 <= s.procs[k].pid <= |s.bits|
    ensures PidsOk(Remove(s, k)) && !HasPid(Remove(s, k), s.procs[k].pid)
  {
    hide Remove;
    RemoveFields(s, k);
    var d := Remove(s, k);
    forall pid ensures HasPid(d, pid) <==> HasPid(s, pid) && pid != s.procs[k].pid { RemoveHasPid(s, k, pid); }
    assert HasPid(s, s.procs[k].pid);
    forall i, j | 0 <= i < j < |d.procs| ensures d.procs[i].pid != d.procs[j].pid {
      RemoveOld(s, k, i);
      RemoveOld(s, k, j);
    }
  }

  /** A thread that is hanging or not a user process is nobody's parent, so it can go. */
  lemma RemoveFamily(s: State, k: nat)
    requires Inv(s) && k < |s.procs| && 1 <= s.procs[k].pid <= |s.bits|
    requires (s.procs[k].status.Hanging? || !s.procs[k].user)
    ensures ParentsOk(Remove(s, k)) && InitOk(Remove(s, k)) && WaitOk(Remove(s, k))
  {
    hide Remove, PidsOk, HistoryOk;
    var d := Remove(s, k);
    var z :| 0 <= z < |s.procs| && IsInit(s.procs[z]);
    RemoveNew(s, k, z);
    assert IsInit(d.procs[Now(k, z)]);
    forall m | 0 <= m < |d.procs| && d.procs[m].parent != -1 ensures exists j :: IsParent(d, m, j) {
      RemoveOld(s, k, m);
      var j :| IsParent(s, Was(k, m), j);
      RemoveNew(s, k, j);
      assert IsParent(d, m, Now(k, j));
    }
    forall m, j | 0 <= m < |d.procs| && 0 <= j < |d.procs| && d.procs[j].status.Waiting? && d.procs[j].pid != INIT
      ensures !HangsFor(d.procs[m], d.procs[j].pid)
    {
      RemoveOld(s, k, m);
      RemoveOld(s, k, j);
      assert !HangsFor(s.procs[Was(k, m)], s.procs[Was(k, j)].pid);
    }
  }

  lemma RemoveUid(s: State, k: nat, uid: nat)
    requires HistoryOk(s) && k < |s.procs| && 1 <= s.procs[k].pid <= |s.bits|
    ensures HasUid(Remove(s, k), uid) <==> HasUid(s, uid) && uid != s.procs[k].uid
    ensures Zombie(Remove(s, k), uid) <==> Zombie(s, uid) && uid != s.procs[k].uid
  {
    hide Remove;
    var d := Remove(s, k);
    if m :| 0 <= m < |d.procs| && d.procs[m].uid == uid {
      RemoveOld(s, k, m);
      assert s.procs[Was(k, m)].uid == uid;
    }
    if m :| 0 <= m < |s.procs| && m != k && s.procs[m].uid == uid { RemoveNew(s, k, m); }
    if m :| 0 <= m < |d.procs| && d.procs[m].uid == uid && d.procs[m].status.Hanging? {
      RemoveOld(s, k, m);
      assert s.procs[Was(k, m)].uid == uid;
    }
    if m :| 0 <= m < |s.procs| && m != k && s.procs[m].uid == uid && s.procs[m].status.Hanging? { RemoveNew(s, k, m); }
  }

  lemma RemoveUids(s: State, k: nat)
    requires HistoryOk(s) && k < |s.procs| && 1 <= s.procs[k].pid <= |s.bits|
    ensures var d := Remove(s, k);
      && (forall uid :: HasUid(d, uid) <==> HasUid(s, uid) && uid != s.procs[k].uid)
      && (forall uid :: Zombie(d, uid) <==> Zombie(s, uid) && uid != s.procs[k].uid)
      && (forall i, j :: 0 <= i < j < |d.procs| ==> d.procs[i].uid != d.procs[j].uid)
  {
    hide Remove, HasUid, Zombie;
    var d := Remove(s, k);
    forall uid: nat
      ensures HasUid(d, uid) <==> HasUid(s, uid) && uid != s.procs[k].uid
      ensures Zombie(d, uid) <==> Zombie(s, uid) && uid != s.procs[k].uid
    {
      RemoveUid(s, k, uid);
    }
    forall i, j | 0 <= i < j < |d.procs| ensures d.procs[i].uid != d.procs[j].uid {
      RemoveOld(s, k, i);
      RemoveOld(s, k, j);
    }
  }

  lemma EndKeeps(s: State, k: nat)
    requires Inv(s) && k < |s.procs| && 1 <= s.procs[k].pid <= |s.bits| && !s.procs[k].user && s.procs[k].status.Live?
    ensures Inv(Remove(s, k))
  {
    hide PidsOk, ParentsOk, InitOk, WaitOk, Remove;
    RemovePids(s, k);
    RemoveFamily(s, k);
    RemoveUids(s, k);
    RemoveFields(s, k);
    assert HasUid(s, s.procs[k].uid) && !Zombie(s, s.procs[k].uid);
  }

  /** Reaping a hanging process: once, since its uid is gone from the list and cannot come back. */
  lemma ReapKeeps(s: State, k: nat)
    requires Inv(s) && k < |s.procs| && 1 <= s.procs[k].pid <= |s.bits| && s.procs[k].status.Hanging?
    ensures s.procs[k].uid in s.exited && s.procs[k].uid !in s.reaped
    ensures Inv(Remove(s, k).(reaped := s.reaped + [s.procs[k].uid]))
  {
    hide PidsOk, ParentsOk, InitOk, WaitOk, Remove;
    RemovePids(s, k);
    RemoveFamily(s, k);
    RemoveUids(s, k);
    RemoveFields(s, k);
    var d := Remove(s, k);
    var u := s.procs[k].uid;
    assert HasUid(s, u) && Zombie(s, u);
    SameFamily(d, d.(reaped := s.reaped + [u]));
    ReapHistory(s, d, u);
  }

  lemma SameFamily(s: State, d: State)
    requires PidsOk(s) && ParentsOk(s) && InitOk(s) && WaitOk(s) && d.procs == s.procs && d.bits == s.bits
    requires d.lost == s.lost
    ensures PidsOk(d) && ParentsOk(d) && InitOk(d) && WaitOk(d)
  {
    assert forall pid :: HasPid(d, pid) == HasPid(s, pid);
    assert forall i, j :: IsParent(d, i, j) == IsParent(s, i, j);
  }

  lemma ReapHistory(s: State, r: State, u: nat)
    requires HistoryOk(s) && HasUid(s, u) && Zombie(s, u) && r.next == s.next && r.exited == s.exited
    requires r.reaped == s.reaped
    requires forall uid :: HasUid(r, uid) <==> HasUid(s, uid) && uid != u
    requires forall uid :: Zombie(r, uid) <==> Zombie(s, uid) && uid != u
    requires forall i, j :: 0 <= i < j < |r.procs| ==> r.procs[i].uid != r.procs[j].uid
    ensures HistoryOk(r.(reaped := s.reaped + [u]))
  {
    var d := r.(reaped := s.reaped + [u]);
    assert forall uid :: HasUid(d, uid) == HasUid(r, uid) && Zombie(d, uid) == Zombie(r, uid);
    assert forall uid :: uid in d.reaped <==> uid in s.reaped || uid == u;
    assert forall i :: 0 <= i < |s.reaped| ==> s.reaped[i] in s.reaped;
  }

  // ---------------------------------------------------------------- wait, and every run

  lemma SleepKeeps(s: State, i: nat)
    requires Inv(s) && i < |s.procs| && s.procs[i].status.Live?
    requires forall k :: 0 <= k < |s.procs| ==> !HangsFor(s.procs[k], s.procs[i].pid)
    ensures Inv(s.(procs := s.procs[i := s.procs[i].(status := Waiting)]))
  {
    var d := s.(procs := s.procs[i := s.procs[i].(status := Waiting)]);
    SleepPids(s, i);
    SleepHistory(s, i);
    forall k | 0 <= k < |d.procs| && d.procs[k].parent != -1 ensures exists j :: IsParent(d, k, j) {
      var j :| IsParent(s, k, j);
      assert IsParent(d, k, j);
    }
    var z :| 0 <= z < |s.procs| && IsInit(s.procs[z]);
    assert IsInit(d.procs[z]);
    forall k, j | 0 <= k < |d.procs| && 0 <= j < |d.procs| && d.procs[j].status.Waiting? && d.procs[j].pid != INIT
      ensures !HangsFor(d.procs[k], d.procs[j].pid)
    {
      assert !HangsFor(s.procs[k], s.procs[j].pid);
    }
  }

  lemma SleepPids(s: State, i: nat)
    requires PidsOk(s) && i < |s.procs|
    ensures PidsOk(s.(procs := s.procs[i := s.procs[i].(status := Waiting)]))
  {
    var d := s.(procs := s.procs[i := s.procs[i].(status := Waiting)]);
    forall pid ensures HasPid(d, pid) == HasPid(s, pid) {
      if k :| 0 <= k < |s.procs| && s.procs[k].pid == pid { assert d.procs[k].pid == pid; }
    }
  }

  lemma SleepHistory(s: State, i: nat)
    requires HistoryOk(s) && i < |s.procs| && s.procs[i].status.Live?
    ensures HistoryOk(s.(procs := s.procs[i := s.procs[i].(status := Waiting)]))
  {
    var d := s.(procs := s.procs[i := s.procs[i].(status := Waiting)]);
    forall uid ensures HasUid(d, uid) == HasUid(s, uid) {
      if k :| 0 <= k < |s.procs| && s.procs[k].uid == uid { assert d.procs[k].uid == uid; }
    }
    forall uid ensures Zombie(d, uid) == Zombie(s, uid) {
      if k :| 0 <= k < |s.procs| && s.procs[k].uid == uid && s.procs[k].status.Hanging? {
        assert d.procs[k].uid == uid;
      }
    }
  }

  lemma PidRange(s: State)
    requires PidsOk(s)
    ensures forall k :: 0 <= k < |s.procs| ==> 1 <= s.procs[k].pid <= |s.bits|
  {
    forall k | 0 <= k < |s.procs| ensures 1 <= s.procs[k].pid <= |s.bits| { assert HasPid(s, s.procs[k].pid); }
  }

  lemma WaitKeeps(s: State, i: nat)
    requires Inv(s) && i < |s.procs| && s.procs[i].status.Live?
    ensures (forall k :: 0 <= k < |s.procs| ==> 1 <= s.procs[k].pid <= |s.bits|) && Inv(Wait(s, i))
  {
    hide Inv, Remove;
    InvPids(s);
    PidRange(s);
    var k := FindHanging(s.procs, s.procs[i].pid);
    if k < |s.procs| { ReapKeeps(s, k); } else { SleepKeeps(s, i); }
  }

  lemma InvPids(s: State)
    requires Inv(s)
    ensures PidsOk(s)
  {
  }

  lemma StepKeeps(s: State, a: Action)
    requires Inv(s)
    ensures Inv(Step(s, a))
  {
    hide Inv, Append, Remove, Exit, Wait;
    if Enabled(s, a) {
      match a
      case AFork(i, mem) =>
        if mem.Enough? { AppendKeeps(s, s.procs[i].pid, s.procs[i].exit, true, s.procs[i].uid); }
        else if mem.NoPageDir? { LostKeeps(s); }
      case ASpawn(user) => AppendKeeps(s, -1, 0, user, s.next);
      case AExit(i, status) => ExitKeeps(s, i, status);
      case AWait(i) => WaitKeeps(s, i);
      case AEnd(i) => EndKeeps(s, i);
    }
  }

  /** Boot: init is the first process, and the main thread and others have no parent. */
  function Boot(n: nat): State
    requires n > 0
  {
    State([Proc(0, 1, -1, Live, 0, true, 0)], seq(n, i => i == 0), 1, {}, [], {})
  }

  lemma BootSafe(n: nat)
    requires n > 0
    ensures Inv(Boot(n))
  {
    var s := Boot(n);
    assert IsInit(s.procs[0]);
    assert HasPid(s, 1) by { assert s.procs[0].pid == 1; }
    assert HasUid(s, 0) by { assert s.procs[0].uid == 0; }
  }

  lemma {:induction false} RunSafe(s: State, acts: seq<Action>)
    requires Inv(s)
    ensures Inv(Run(s, acts))
  {
    hide Inv;
    if acts != [] {
      RunSafe(s, acts[..|acts| - 1]);
      StepKeeps(Run(s, acts[..|acts| - 1]), acts[|acts| - 1]);
    }
  }

  // ---------------------------------------------------------------- what follows for every run

  /** Every process that exited is reaped at most once, and none is reaped that did not exit. */
  lemma ReapedOnce(n: nat, acts: seq<Action>)
    requires n > 0
    ensures var s := Run(Boot(n), acts); forall i, j :: 0 <= i < j < |s.reaped| ==> s.reaped[i] != s.reaped[j]
    ensures var s := Run(Boot(n), acts); forall uid :: uid in s.reaped ==> uid in s.exited && !HasUid(s, uid)
  {
    hide PidsOk, ParentsOk, InitOk, WaitOk;
    BootSafe(n);
    RunSafe(Boot(n), acts);
  }

  /** In a reachable state a record's parent is -1 or the pid of the process that forked it, or of init; both alive. */
  lemma ParentAlive(n: nat, acts: seq<Action>, i: nat)
    requires n > 0 && i < |Run(Boot(n), acts).procs|
    ensures var s := Run(Boot(n), acts); s.procs[i].parent == -1 || exists j :: IsParent(s, i, j)
    ensures var s := Run(Boot(n), acts); forall j :: 0 <= j < |s.procs| && j != i ==> s.procs[j].pid != s.procs[i].pid
  {
    hide HistoryOk, InitOk, WaitOk;
    BootSafe(n);
    RunSafe(Boot(n), acts);
  }

  /** A process that forks hands its child the least free pid, which nobody in the list names as parent. */
  lemma NewPidFresh(n: nat, acts: seq<Action>, i: nat)
    requires n > 0 && Enabled(Run(Boot(n), acts), AFork(i, Enough))
    ensures var s := Run(Boot(n), acts); var pid := FirstClear(s.bits) + 1;
      !HasPid(s, pid) && forall k :: 0 <= k < |s.procs| ==> s.procs[k].parent != pid
  {
    hide ParentsOk, HistoryOk, InitOk, WaitOk;
    BootSafe(n);
    RunSafe(Boot(n), acts);
    var s := Run(Boot(n), acts);
    FreePidChildless(s, FirstClear(s.bits) + 1);
  }

  /** No process but init waits while one of its children hangs. */
  lemma NoChildForgotten(n: nat, acts: seq<Action>, i: nat, j: nat)
    requires n > 0
    requires var s := Run(Boot(n), acts);
      i < |s.procs| && j < |s.procs| && s.procs[j].status.Waiting? && s.procs[j].pid != INIT
    ensures var s := Run(Boot(n), acts); !HangsFor(s.procs[i], s.procs[j].pid)
  {
    hide ParentsOk, HistoryOk, InitOk, PidsOk;
    BootSafe(n);
    RunSafe(Boot(n), acts);
  }

  /** What wait reaps is a child that the caller itself forked, unless the caller is init; it never returns -1. */
  lemma WaitReaps(n: nat, acts: seq<Action>, i: nat)
    requires n > 0 && Enabled(Run(Boot(n), acts), AWait(i))
    ensures var s := Run(Boot(n), acts); FindPid(s.procs, s.procs[i].pid) == i
    ensures var s := Run(Boot(n), acts); var k := FindHanging(s.procs, s.procs[i].pid);
      k < |s.procs| && s.procs[i].pid != INIT ==> s.procs[k].maker == s.procs[i].uid
  {
    hide HistoryOk, InitOk, WaitOk;
    BootSafe(n);
    RunSafe(Boot(n), acts);
    var s := Run(Boot(n), acts);
    var k := FindHanging(s.procs, s.procs[i].pid);
    if k < |s.procs| {
      InvPidRange(s, i);
      var j :| IsParent(s, k, j);
      assert j == i;
    }
  }

  lemma InvPidRange(s: State, i: nat)
    requires PidsOk(s) && i < |s.procs|
    ensures s.procs[i].pid >= 1
  {
    PidRange(s);
  }

  // ---------------------------------------------------------------- the exit status reaches wait

  ghost predicate ZombieWith(s: State, uid: nat, pid: int, exit: int) {
    exists k :: 0 <= k < |s.procs| && IsZombie(s.procs[k], uid, pid, exit)
  }

  predicate IsZombie(p: Proc, uid: nat, pid: int, exit: int) {
    p.uid == uid && p.pid == pid && p.exit == exit && p.status.Hanging?
  }

  /** Whatever happens, a process that exited keeps its pid and status until it is reaped. */
  lemma ZombieStep(s: State, a: Action, uid: nat, pid: int, exit: int)
    requires Inv(s) && ZombieWith(s, uid, pid, exit)
    ensures ZombieWith(Step(s, a), uid, pid, exit) || uid in Step(s, a).reaped
  {
    hide ParentsOk, InitOk, WaitOk, HistoryOk, AfterExit, Remove, PidsOk;
    InvPids(s);
    var z :| 0 <= z < |s.procs| && IsZombie(s.procs[z], uid, pid, exit);
    var d := Step(s, a);
    if Enabled(s, a) {
      match a
      case AFork(i, mem) => assert IsZombie(d.procs[z], uid, pid, exit);
      case ASpawn(user) => assert IsZombie(d.procs[z], uid, pid, exit);
      case AExit(i, status) =>
        AfterExitAt(s, i, status, z);
        assert IsZombie(d.procs[z], uid, pid, exit);
      case AEnd(i) =>
        RemoveNew(s, i, z);
        assert IsZombie(d.procs[Now(i, z)], uid, pid, exit);
      case AWait(i) => ZombieWaits(s, i, z, uid, pid, exit);
    }
  }

  lemma ZombieWaits(s: State, i: nat, z: nat, uid: nat, pid: int, exit: int)
    requires Enabled(s, AWait(i)) && z < |s.procs| && IsZombie(s.procs[z], uid, pid, exit)
    ensures ZombieWith(Wait(s, i), uid, pid, exit) || uid in Wait(s, i).reaped
  {
    hide Remove;
    var d := Wait(s, i);
    var k := FindHanging(s.procs, s.procs[i].pid);
    if k < |s.procs| && k != z {
      RemoveNew(s, k, z);
      assert IsZombie(d.procs[Now(k, z)], uid, pid, exit);
    } else if k == |s.procs| {
      assert IsZombie(d.procs[z], uid, pid, exit);
    }
  }

  lemma ReapedStays(s: State, a: Action)
    ensures forall uid :: uid in s.reaped ==> uid in Step(s, a).reaped
  {
  }

  lemma {:induction false} ZombieRun(s: State, acts: seq<Action>, uid: nat, pid: int, exit: int)
    requires Inv(s) && ZombieWith(s, uid, pid, exit)
    ensures ZombieWith(Run(s, acts), uid, pid, exit) || uid in Run(s, acts).reaped
  {
    hide Inv, ZombieWith, Step;
    if acts != [] {
      var before := acts[..|acts| - 1];
      RunSafe(s, before);
      ZombieRun(s, before, uid, pid, exit);
      ReapedStays(Run(s, before), acts[|acts| - 1]);
      if ZombieWith(Run(s, before), uid, pid, exit) { ZombieStep(Run(s, before), acts[|acts| - 1], uid, pid, exit); }
    }
  }

  /** The caller at position w is about to reap the process with this uid. */
  predicate WillReap(s: State, w: nat, uid: nat) {
    && Enabled(s, AWait(w))
    && var k := FindHanging(s.procs, s.procs[w].pid);
       k < |s.procs| && s.procs[k].uid == uid
  }

  /** If wait reaps, much later, the process that exited with a status, it reports that status as a signed byte. */
  lemma StatusDelivered(s: State, i: nat, status: int, acts: seq<Action>, w: nat)
    requires Inv(s) && Enabled(s, AExit(i, status))
    requires WillReap(Run(Step(s, AExit(i, status)), acts), w, s.procs[i].uid)
    ensures var r := Run(Step(s, AExit(i, status)), acts); var c := r.procs[FindHanging(r.procs, r.procs[w].pid)];
      && c.pid == s.procs[i].pid && -128 <= c.exit < 128 && (c.exit - status) % 256 == 0
      && (-128 <= status < 128 ==> c.exit == status)
  {
    hide ParentsOk, InitOk, WaitOk, AfterExit, PidsOk;
    var d := Step(s, AExit(i, status));
    InvPids(s);
    StepKeeps(s, AExit(i, status));
    AfterExitAt(s, i, status, i);
    assert IsZombie(d.procs[i], s.procs[i].uid, s.procs[i].pid, Int8(status));
    ZombieRun(d, acts, s.procs[i].uid, s.procs[i].pid, Int8(status));
    RunSafe(d, acts);
    ByteUnique(status, Int8(status));
    OneRecord(Run(d, acts), FindHanging(Run(d, acts).procs, Run(d, acts).procs[w].pid), s.procs[i].pid, Int8(status));
  }

  /** The one signed byte that is congruent to a status; a status that is one is itself. */
  lemma ByteUnique(x: int, y: int)
    requires -128 <= y < 128 && (y - x) % 256 == 0
    ensures y == Int8(x) && (-128 <= x < 128 ==> y == x)
  {
    var q, r := (y - x) / 256, (Int8(x) - x) / 256;
    assert y == x + 256 * q && Int8(x) == x + 256 * r;
  }

  lemma OneRecord(r: State, k: nat, pid: int, exit: int)
    requires HistoryOk(r) && k < |r.procs| && (ZombieWith(r, r.procs[k].uid, pid, exit) || r.procs[k].uid in r.reaped)
    ensures r.procs[k].pid == pid && r.procs[k].exit == exit
  {
    assert HasUid(r, r.procs[k].uid);
    var z :| 0 <= z < |r.procs| && IsZombie(r.procs[z], r.procs[k].uid, pid, exit);
    assert z == k;
  }

  ghost predicate InitWaits(s: State) {
    exists z :: 0 <= z < |s.procs| && s.procs[z].pid == INIT && s.procs[z].status.Waiting?
  }

  ghost predicate HasZombie(s: State, pid: int) {
    exists k :: 0 <= k < |s.procs| && HangsFor(s.procs[k], pid)
  }

  /** Init waits although a child of its hangs. */
  ghost predicate InitStuck(s: State) { InitWaits(s) && HasZombie(s, INIT) }

  /**
   Where init is the exception, exactly: it comes to wait beside a hanging child only when a process with a hanging
   child exits whose parent is not init, while init waits. Adoption then does not wake it.
   */
  lemma StuckExactly(s: State, a: Action)
    requires Inv(s) && !InitStuck(s)
    ensures InitStuck(Step(s, a)) <==>
      a.AExit? && Enabled(s, a) && InitWaits(s) && s.procs[a.i].parent != INIT && HasZombie(s, s.procs[a.i].pid)
  {
    hide Inv, InitStuck, Fork, Append, Exit, Wait, Remove;
    if Enabled(s, a) {
      match a
      case AFork(i, mem) => ForkNotStuck(s, i, mem);
      case ASpawn(user) => AppendNotStuck(s, -1, 0, user, s.next);
      case AExit(i, status) => ExitStuck(s, i, status);
      case AWait(i) => WaitNotStuck(s, i);
      case AEnd(i) => RemoveNotStuck(s, i);
    }
  }

  lemma ForkNotStuck(s: State, i: nat, mem: Memory)
    requires !InitStuck(s) && Enabled(s, AFork(i, mem))
    ensures !InitStuck(Fork(s, i, mem))
  {
    if mem.Enough? { AppendNotStuck(s, s.procs[i].pid, s.procs[i].exit, true, s.procs[i].uid); }
  }

  lemma AppendNotStuck(s: State, parent: int, exit: int, user: bool, maker: nat)
    requires !InitStuck(s) && FirstClear(s.bits) < |s.bits|
    ensures !InitStuck(Append(s, parent, exit, user, maker))
  {
    var d := Append(s, parent, exit, user, maker);
    assert forall k :: 0 <= k < |s.procs| ==> d.procs[k] == s.procs[k];
    assert InitWaits(d) ==> InitWaits(s);
    assert HasZombie(d, INIT) ==> HasZombie(s, INIT);
  }

  lemma RemoveNotStuck(s: State, k: nat)
    requires !InitStuck(s) && k < |s.procs| && 1 <= s.procs[k].pid <= |s.bits|
    ensures !InitStuck(Remove(s, k))
  {
    hide Remove;
    var d := Remove(s, k);
    if z :| 0 <= z < |d.procs| && d.procs[z].pid == INIT && d.procs[z].status.Waiting? {
      RemoveOld(s, k, z);
      assert InitWaits(s);
    }
    if m :| 0 <= m < |d.procs| && HangsFor(d.procs[m], INIT) {
      RemoveOld(s, k, m);
      assert HangsFor(s.procs[Was(k, m)], INIT);
      assert HasZombie(s, INIT);
    }
  }

  lemma WaitNotStuck(s: State, i: nat)
    requires !InitStuck(s) && Enabled(s, AWait(i))
    ensures !InitStuck(Wait(s, i))
  {
    hide Remove;
    var k := FindHanging(s.procs, s.procs[i].pid);
    if k < |s.procs| {
      RemoveNotStuck(s, k);
      SameStuck(Remove(s, k), Wait(s, i));
    } else {
      var d := Wait(s, i);
      assert forall m :: 0 <= m < |d.procs| ==> HangsFor(d.procs[m], INIT) == HangsFor(s.procs[m], INIT);
      assert HasZombie(d, INIT) == HasZombie(s, INIT);
    }
  }

  lemma SameStuck(s: State, d: State)
    requires d.procs == s.procs
    ensures InitStuck(d) == InitStuck(s)
  {
  }

  lemma ExitStuck(s: State, i: nat, status: int)
    requires Inv(s) && !InitStuck(s) && Enabled(s, AExit(i, status))
    ensures InitStuck(Exit(s, i, status)) <==> InitWaits(s) && s.procs[i].parent != INIT && HasZombie(s, s.procs[i].pid)
  {
    hide Inv, InitWaits, HasZombie, Exit;
    ExitWaits(s, i, status);
    if s.procs[i].parent != INIT { ExitZombie(s, i, status); }
  }

  lemma ExitWaits(s: State, i: nat, status: int)
    requires Inv(s) && Enabled(s, AExit(i, status))
    ensures InitWaits(Exit(s, i, status)) <==> InitWaits(s) && s.procs[i].parent != INIT
  {
    hide AfterExit, ParentsOk, HistoryOk, WaitOk, InitOk;
    NotOwn(s, i);
    var d := Exit(s, i, status);
    if z :| 0 <= z < |s.procs| && s.procs[z].pid == INIT && s.procs[z].status.Waiting? {
      AfterExitAt(s, i, status, z);
      forall y | 0 <= y < |d.procs| && d.procs[y].pid == INIT ensures y == z { AfterExitAt(s, i, status, y); }
      assert d.procs[z].status.Waiting? <==> s.procs[i].parent != INIT;
    }
    if z :| 0 <= z < |d.procs| && d.procs[z].pid == INIT && d.procs[z].status.Waiting? { AfterExitAt(s, i, status, z); }
  }

  lemma NotOwn(s: State, i: nat)
    requires Inv(s) && i < |s.procs|
    ensures s.procs[i].parent != s.procs[i].pid
  {
    NotOwnParent(s, i);
  }

  lemma ExitZombie(s: State, i: nat, status: int)
    requires Inv(s) && Enabled(s, AExit(i, status)) && s.procs[i].parent != INIT
    ensures HasZombie(Exit(s, i, status), INIT) <==> HasZombie(s, INIT) || HasZombie(s, s.procs[i].pid)
  {
    hide AfterExit, ParentsOk, HistoryOk, WaitOk, InitOk;
    NotOwn(s, i);
    var d := Exit(s, i, status);
    if k :| 0 <= k < |s.procs| && (HangsFor(s.procs[k], INIT) || HangsFor(s.procs[k], s.procs[i].pid)) {
      AfterExitAt(s, i, status, k);
      assert HangsFor(d.procs[k], INIT);
    }
    if k :| 0 <= k < |d.procs| && HangsFor(d.procs[k], INIT) {
      AfterExitAt(s, i, status, k);
      assert HangsFor(s.procs[k], INIT) || HangsFor(s.procs[k], s.procs[i].pid);
    }
  }

  lemma NotOwnParent(s: State, i: nat)
    requires PidsOk(s) && ParentsOk(s) && i < |s.procs|
    ensures s.procs[i].parent != s.procs[i].pid
  {
    PidRange(s);
  }

  lemma RunMore(s: State, acts: seq<Action>, a: Action)
    ensures Run(s, acts + [a]) == Step(Run(s, acts), a)
  {
    assert (acts + [a])[..|acts|] == acts;
  }

  lemma ClearAt(bits: seq<bool>, k: nat)
    requires k < |bits| && !bits[k] && forall i :: 0 <= i < k ==> bits[i]
    ensures FirstClear(bits) == k
  {
  }

  /** Process n forked by process i of the list, with pid n + 1. */
  function Child(n: nat, parent: int, maker: nat): Proc { Proc(n, n + 1, parent, Live, 0, true, maker) }

  /** The three forks of the run below: each new process forks the next. */
  lemma ThreeForks(s: State)
    requires s == Run(Boot(8), [AFork(0, Enough), AFork(1, Enough), AFork(2, Enough)])
    ensures s.procs == [Child(0, -1, 0), Child(1, 1, 0), Child(2, 2, 1), Child(3, 3, 2)] && |s.bits| == 8 && Inv(s)
  {
    hide Step, Inv;
    BootSafe(8);
    RunSafe(Boot(8), [AFork(0, Enough), AFork(1, Enough), AFork(2, Enough)]);
    RunMore(Boot(8), [], AFork(0, Enough));
    RunMore(Boot(8), [AFork(0, Enough)], AFork(1, Enough));
    RunMore(Boot(8), [AFork(0, Enough), AFork(1, Enough)], AFork(2, Enough));
    var a, b := Run(Boot(8), [AFork(0, Enough)]), Run(Boot(8), [AFork(0, Enough), AFork(1, Enough)]);
    assert Run(Boot(8), []) == Boot(8);
    assert [] + [AFork(0, Enough)] == [AFork(0, Enough)];
    assert [AFork(0, Enough)] + [AFork(1, Enough)] == [AFork(0, Enough), AFork(1, Enough)];
    assert [AFork(0, Enough), AFork(1, Enough)] + [AFork(2, Enough)] ==
      [AFork(0, Enough), AFork(1, Enough), AFork(2, Enough)];
    OneFork(Boot(8), 0, 1);
    OneFork(a, 1, 2);
    OneFork(b, 2, 3);
  }

  lemma OneFork(s: State, i: nat, n: nat)
    requires i < |s.procs| == n == s.next && n < |s.bits| && s.procs[i] == Child(i, s.procs[i].parent, s.procs[i].maker)
    requires forall k :: 0 <= k < |s.bits| ==> s.bits[k] == (k < n)
    ensures var d := Step(s, AFork(i, Enough));
      && d.procs == s.procs + [Child(n, i + 1, i)] && d.next == n + 1 && |d.bits| == |s.bits|
      && forall k :: 0 <= k < |d.bits| ==> d.bits[k] == (k < n + 1)
  {
    ClearAt(s.bits, n);
  }

  /**
   A run that gets there: init, A, B and C fork in turn; C exits, init waits, and B, which is not init's child, exits.
   */
  lemma StuckRun(s: State)
    requires s ==
      Run(Boot(8), [AFork(0, Enough), AFork(1, Enough), AFork(2, Enough), AExit(3, 7), AWait(0), AExit(2, 0)])
    ensures Inv(s) && InitStuck(s)
  {
    hide Step, Inv, InitStuck;
    var f := [AFork(0, Enough), AFork(1, Enough), AFork(2, Enough)];
    var a, b, c := AExit(3, 7), AWait(0), AExit(2, 0);
    assert f + [a] + [b] + [c] ==
      [AFork(0, Enough), AFork(1, Enough), AFork(2, Enough), AExit(3, 7), AWait(0), AExit(2, 0)];
    RunMore(Boot(8), f, a);
    RunMore(Boot(8), f + [a], b);
    RunMore(Boot(8), f + [a] + [b], c);
    var s3 := Run(Boot(8), f);
    ThreeForks(s3);
    var s4 := Step(s3, a);
    var s5 := Step(s4, b);
    FirstExit(s3, s4);
    InitSleeps(s4, s5);
    StepKeeps(s3, a);
    StepKeeps(s4, b);
    StepKeeps(s5, c);
    LastExit(s5);
  }

  lemma FirstExit(s: State, d: State)
    requires Inv(s) && s.procs == [Child(0, -1, 0), Child(1, 1, 0), Child(2, 2, 1), Child(3, 3, 2)]
    requires d == Step(s, AExit(3, 7))
    ensures d.procs == s.procs[3 := s.procs[3].(status := Hanging, exit := 7)] && d.bits == s.bits
  {
    hide AfterExit, ParentsOk, HistoryOk, WaitOk, InitOk;
    AfterExitAt(s, 3, 7, 0);
    AfterExitAt(s, 3, 7, 1);
    AfterExitAt(s, 3, 7, 2);
    AfterExitAt(s, 3, 7, 3);
  }

  lemma InitSleeps(s: State, d: State)
    requires |s.procs| == 4 && s.procs[0] == Child(0, -1, 0) && s.procs[1] == Child(1, 1, 0)
    requires s.procs[2] == Child(2, 2, 1)
    requires s.procs[3].parent == 3 && d == Step(s, AWait(0)) && s.procs[3].pid == 4 && |s.bits| >= 4
    ensures d.procs == s.procs[0 := s.procs[0].(status := Waiting)]
  {
    hide Remove;
  }

  lemma LastExit(s: State)
    requires Inv(s) && |s.procs| == 4 && s.procs[0] == Child(0, -1, 0).(status := Waiting)
    requires s.procs[1] == Child(1, 1, 0)
    requires s.procs[2] == Child(2, 2, 1) && HangsFor(s.procs[3], 3)
    ensures InitStuck(Step(s, AExit(2, 0)))
  {
    hide Inv, Step;
    assert forall k :: 0 <= k < 4 ==> !HangsFor(s.procs[k], INIT);
    StuckExactly(s, AExit(2, 0));
  }

  // ---------------------------------------------------------------- the list of all threads, updated in place

  datatype WaitResult = Reaped(pid: int, exit: int) | NoChild | Blocked

  class ThreadList {
    var procs: seq<Proc>
    var bits: seq<bool>
    var next: nat
    var exited: set<nat>
    var reaped: seq<nat>
    var lost: set<int>

    function S(): State
      reads this
    {
      State(procs, bits, next, exited, reaped, lost)
    }

    constructor (n: nat)
      requires n > 0
      ensures S() == Boot(n) && Inv(S())
    {
      procs, bits, next := [Proc(0, 1, -1, Live, 0, true, 0)], seq(n, i => i == 0), 1;
      exited, reaped, lost := {}, [], {};
      new;
      BootSafe(n);
    }

    /** The least free pid, whose bit it sets; Nothing where the kernel stops on a failed assertion. */
    method AllocatePid() returns (pid: Maybe<int>)
      modifies this`bits
      ensures pid.Nothing? <==> FirstClear(old(bits)) == |old(bits)|
      ensures pid.Nothing? ==> bits == old(bits)
      ensures pid.Just? ==> pid.value == FirstClear(old(bits)) + 1 && bits == old(bits)[FirstClear(old(bits)) := true]
    {
      var k := Search(bits, 1);
      assert forall i :: 0 <= i < |bits| && !bits[i] ==> ClearRun(bits, i, 1);
      if k == -1 { return Nothing; }
      assert !bits[k] && forall i :: 0 <= i < k ==> bits[i];
      bits := bits[k := true];
      pid := Just(k + 1);
    }

    method ReleasePid(pid: int)
      requires 1 <= pid <= |bits|
      modifies this`bits
      ensures bits == old(bits)[pid - 1 := false]
    {
      bits := bits[pid - 1 := false];
    }

    method Pid2Thread(pid: int) returns (k: nat)
      ensures k == FindPid(procs, pid)
    {
      k := 0;
      while k < |procs| && procs[k].pid != pid
        invariant k <= |procs| && forall i :: 0 <= i < k ==> procs[i].pid != pid
      {
        k := k + 1;
      }
    }

    method FirstHanging(pid: int) returns (k: nat)
      ensures k == FindHanging(procs, pid)
    {
      k := 0;
      while k < |procs| && !HangsFor(procs[k], pid)
        invariant k <= |procs| && forall i :: 0 <= i < k ==> !HangsFor(procs[i], pid)
      {
        k := k + 1;
      }
    }

    /** Every child of pid becomes a child of init. */
    method InitAdopt(pid: int)
      modifies this`procs
      ensures procs == Adopted(old(procs), pid)
    {
      var i := 0;
      while i < |procs|
        invariant 0 <= i <= |procs| == |old(procs)|
        invariant forall k :: 0 <= k < |procs| ==>
          procs[k] == if k < i then Adopt(old(procs)[k], pid) else old(procs)[k]
      {
        if procs[i].parent == pid { procs := procs[i := procs[i].(parent := INIT)]; }
        i := i + 1;
      }
    }

    method ThreadExit(k: nat)
      requires k < |procs| && 1 <= procs[k].pid <= |bits|
      modifies this`procs, this`bits
      ensures S() == Remove(old(S()), k)
    {
      var pid := procs[k].pid;
      procs := procs[..k] + procs[k + 1..];
      ReleasePid(pid);
    }

    /** A kernel thread ends itself. */
    method EndSelf(i: nat)
      requires Inv(S()) && Enabled(S(), AEnd(i))
      modifies this`procs, this`bits
      ensures S() == Step(old(S()), AEnd(i)) && Inv(S())
    {
      StepKeeps(S(), AEnd(i));
      ThreadExit(i);
    }

    /** sys_fork by the process at position i: the child's pid, or -1. */
    method SysFork(i: nat, mem: Memory) returns (r: int)
      requires Inv(S()) && Enabled(S(), AFork(i, mem))
      modifies this
      ensures S() == Step(old(S()), AFork(i, mem)) && Inv(S())
      ensures r == -1 <==> !mem.Enough?
      ensures r != -1 ==>
        !HasPid(old(S()), r) && procs[|procs| - 1].pid == r && procs[|procs| - 1].parent == procs[i].pid
    {
      hide Inv;
      StepKeeps(S(), AFork(i, mem));
      ForkPid(S());
      if mem.NoPcb? { return -1; }
      var pid := AllocatePid();
      if mem.NoPageDir? {
        lost := lost + {pid.value};
        return -1;
      }
      procs := procs + [Proc(next, pid.value, procs[i].pid, Live, procs[i].exit, true, procs[i].uid)];
      next := next + 1;
      r := pid.value;
    }

    method SysExit(i: nat, status: int)
      requires Inv(S()) && Enabled(S(), AExit(i, status))
      modifies this
      ensures S() == Step(old(S()), AExit(i, status)) && Inv(S())
    {
      hide Inv;
      StepKeeps(S(), AExit(i, status));
      exited := exited + {procs[i].uid};
      procs := procs[i := procs[i].(exit := Int8(status))];
      InitAdopt(procs[i].pid);
      var k := Pid2Thread(procs[i].parent);
      if k < |procs| && procs[k].status.Waiting? {
        procs := procs[k := procs[k].(status := Live)];
      }
      procs := procs[i := procs[i].(status := Hanging)];
    }

    /** One pass of sys_wait by the process at position i. */
    method SysWait(i: nat) returns (r: WaitResult)
      requires Inv(S()) && Enabled(S(), AWait(i))
      modifies this
      ensures S() == Step(old(S()), AWait(i)) && Inv(S()) && !r.NoChild?
      ensures var k := FindHanging(old(procs), old(procs)[i].pid);
        r == if k < |old(procs)| then Reaped(old(procs)[k].pid, old(procs)[k].exit) else Blocked
    {
      hide Inv;
      StepKeeps(S(), AWait(i));
      ForkPid(S());
      var k := FirstHanging(procs[i].pid);
      if k < |procs| {
        r := Reaped(procs[k].pid, procs[k].exit);
        reaped := reaped + [procs[k].uid];
        ThreadExit(k);
        return;
      }
      var self := Pid2Thread(procs[i].pid);
      if self == |procs| { return NoChild; }
      procs := procs[i := procs[i].(status := Waiting)];
      r := Blocked;
    }
  }

  lemma ForkPid(s: State)
    requires Inv(s)
    ensures !HasPid(s, -1) && (FirstClear(s.bits) < |s.bits| ==> !HasPid(s, FirstClear(s.bits) + 1))
  {
    hide ParentsOk, InitOk, WaitOk, HistoryOk;
  }
}

/**
 What one system call does to the list of all threads, record by record: who comes, who goes, and which field of
 whose record moves.
 */
module Records {
  import opened Common
  import opened Process

  /** The position that a call takes out of the list, or its length. */
  function Leaver(s: State, a: Action): (k: nat)
    ensures k <= |s.procs|
  {
    if a.AEnd? && a.i < |s.procs| then a.i
    else if a.AWait? && a.i < |s.procs| then FindHanging(s.procs, s.procs[a.i].pid)
    else |s.procs|
  }

  /** Whether a call puts a new record at the end. */
  predicate Comes(a: Action) { a.ASpawn? || (a.AFork? && a.mem.Enough?) }

  /** The thread waits, and the process that exits is its child. */
  predicate WokenBy(s: State, a: Action, j: nat)
    requires j < |s.procs|
  {
    a.AExit? && a.i < |s.procs| && s.procs[j].status.Waiting? && s.procs[j].pid == s.procs[a.i].parent
  }

  /** The list keeps its order; one record may leave it and one may come at its end. */
  lemma ListStep(s: State, a: Action)
    requires Inv(s) && Enabled(s, a)
    ensures var k, d := Leaver(s, a), Step(s, a);
      && |d.procs| == |s.procs| - (if k < |s.procs| then 1 else 0) + (if Comes(a) then 1 else 0)
      && forall j :: 0 <= j < |s.procs| && j != k ==> d.procs[Now(k, j)].uid == s.procs[j].uid
  {
    hide Inv, Remove, AfterExit;
    InvPids(s);
    forall j | 0 <= j < |s.procs| && j != Leaver(s, a)
      ensures 0 <= Now(Leaver(s, a), j) < |Step(s, a).procs|
      ensures Step(s, a).procs[Now(Leaver(s, a), j)].uid == s.procs[j].uid
    {
      RecordStep(s, a, j);
    }
    if a.AEnd? { RemoveLength(s, a.i); }
    if a.AWait? && Leaver(s, a) < |s.procs| { RemoveLength(s, Leaver(s, a)); }
  }

  lemma RemoveLength(s: State, k: nat)
    requires k < |s.procs| && 1 <= s.procs[k].pid <= |s.bits|
    ensures |Remove(s, k).procs| == |s.procs| - 1
  {
  }

  /**
   The record of a thread that stays: exit gives the children of the caller to init, wakes its parent if that waits,
   and marks the caller; wait without a hanging child marks the caller; nothing else moves.
   */
  lemma RecordStep(s: State, a: Action, j: nat)
    requires Inv(s) && Enabled(s, a) && j < |s.procs| && j != Leaver(s, a)
    ensures var k := Now(Leaver(s, a), j); 0 <= k < |Step(s, a).procs|
    ensures var p, q := s.procs[j], Step(s, a).procs[Now(Leaver(s, a), j)];
      q.uid == p.uid && q.pid == p.pid && q.user == p.user && q.maker == p.maker
    ensures var p, q := s.procs[j], Step(s, a).procs[Now(Leaver(s, a), j)];
      q.parent == if a.AExit? && p.parent == s.procs[a.i].pid then INIT else p.parent
    ensures var p, q := s.procs[j], Step(s, a).procs[Now(Leaver(s, a), j)];
      if a.AExit? && j == a.i then -128 <= q.exit < 128 && (q.exit - a.status) % 256 == 0 else q.exit == p.exit
    ensures var p, q := s.procs[j], Step(s, a).procs[Now(Leaver(s, a), j)];
      q.status ==
        if a.AExit? && j == a.i then Hanging
        else if WokenBy(s, a, j) then Live
        else if a.AWait? && j == a.i && Leaver(s, a) == |s.procs| then Waiting
        else p.status
  {
    hide ParentsOk, InitOk, WaitOk, HistoryOk, Remove, AfterExit;
    InvPids(s);
    match a
    case AFork(i, mem) =>
    case ASpawn(user) =>
    case AExit(i, status) =>
      NotOwnParents(s, i);
      AfterExitAt(s, i, status, j);
    case AEnd(i) => RemoveNew(s, i, j);
    case AWait(i) =>
      var k := Leaver(s, a);
      if k < |s.procs| { RemoveNew(s, k, j); } else { FoundSelf(s, i); }
  }

  lemma NotOwnParents(s: State, i: nat)
    requires Inv(s)
    ensures i < |s.procs| ==> s.procs[i].parent != s.procs[i].pid
  {
    hide HistoryOk, WaitOk, InitOk;
    if i < |s.procs| { NotOwnParent(s, i); }
  }

  lemma FoundSelf(s: State, i: nat)
    requires i < |s.procs|
    ensures FindPid(s.procs, s.procs[i].pid) < |s.procs|
  {
  }

  /** Who leaves by a wait: the first hanging child of the caller. Who comes: live, with the least free pid. */
  lemma ComingAndGoing(s: State, a: Action)
    requires Inv(s) && Enabled(s, a)
    ensures var k := Leaver(s, a);
      a.AWait? && k < |s.procs| ==>
        && s.procs[k].parent == s.procs[a.i].pid && s.procs[k].status.Hanging?
        && Step(s, a).reaped == s.reaped + [s.procs[k].uid]
        && forall j :: 0 <= j < k ==> !(s.procs[j].parent == s.procs[a.i].pid && s.procs[j].status.Hanging?)
    ensures a.AWait? && Leaver(s, a) == |s.procs| ==>
      forall j :: 0 <= j < |s.procs| ==> !(s.procs[j].parent == s.procs[a.i].pid && s.procs[j].status.Hanging?)
    ensures Comes(a) ==>
      var p := Step(s, a).procs[|s.procs|];
      && p.uid == s.next && p.status.Live? && p.parent == (if a.AFork? then s.procs[a.i].pid else -1)
      && 1 <= p.pid <= |s.bits| && !s.bits[p.pid - 1] && (forall q :: 0 <= q < p.pid - 1 ==> s.bits[q])
      && (a.AFork? ==> p.user && p.maker == s.procs[a.i].uid)
  {
    hide Inv, Remove;
  }
}

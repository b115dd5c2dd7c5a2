/**
 Whole runs of inserts and deletes on one directory, against a plain finite map.
 */
module DirSession {
  import opened Volume
  import opened FileData
  import opened DirCells
  import opened Directory

  type Dict = map<seq<byte>, (word, word)>

  datatype Op = Add(e: Slot) | Drop(child: word)

  predicate Plain(name: seq<byte>) { name != Dot() && name != DotDot() }

  /** The names, dots aside, that a dictionary binds to an inode. */
  function NamesOf(m: Dict, child: word): set<seq<byte>> {
    set n | n in m && Plain(n) && m[n].0 == child
  }

  function Apply(m: Dict, op: Op): Dict {
    match op
    case Add(e) => m[e.name := (e.ino, e.kind)]
    case Drop(child) => m - NamesOf(m, child)
  }

  function ApplyAll(m: Dict, ops: seq<Op>): Dict {
    if ops == [] then m else Apply(ApplyAll(m, ops[..|ops| - 1]), ops[|ops| - 1])
  }

  /** What callers of the insert operation see to: a new valid name, a new inode, room in the blocks. */
  ghost predicate Allowed(m: Dict, op: Op) {
    op.Add? ==> Live(op.e) && NameOk(op.e.name) && op.e.name !in m && NamesOf(m, op.e.ino) == {} && |m| < CELLS
  }

  lemma {:induction false} EntriesSize(c: seq<Slot>)
    requires DistinctNames(c)
    ensures |Entries(c)| == LiveCount(c)
  {
    if c != [] {
      DistinctTail(c);
      EntriesSize(c[1..]);
      EntriesKeys(c[1..], c[0].name);
      assert forall k :: 0 <= k < |c| - 1 ==> c[1..][k] == c[k + 1];
      if Live(c[0]) {
        assert c[0].name !in Entries(c[1..]);
      }
    }
  }

  /** A name bound to an inode sits in a cell with that inode, past the dots if it is plain. */
  lemma CellOfName(c: seq<Slot>, name: seq<byte>) returns (k: nat)
    requires CellsOk(c) && name in Entries(c)
    ensures k < CELLS && Live(c[k]) && c[k].name == name && Entries(c)[name] == (c[k].ino, c[k].kind)
    ensures Plain(name) <==> 2 <= k
  {
    EntriesKeys(c, name);
    k :| 0 <= k < |c| && Live(c[k]) && c[k].name == name;
    EntryAt(c, k);
    DotsFirst(c, k);
  }

  lemma TargetNames(c: seq<Slot>, child: word, k: nat)
    requires CellsOk(c) && Target(c, child, k)
    ensures NamesOf(Entries(c), child) == {c[k].name}
  {
    hide LiveCount;
    EntryAt(c, k);
    DotsFirst(c, k);
    forall n | n in NamesOf(Entries(c), child) ensures n == c[k].name {
      var i := CellOfName(c, n);
      assert Target(c, child, i);
      OneTarget(c, child, k);
    }
  }

  lemma NoTargetNames(c: seq<Slot>, child: word)
    requires CellsOk(c)
    ensures NamesOf(Entries(c), child) == {} <==> !exists k :: Target(c, child, k)
  {
    forall n | n in NamesOf(Entries(c), child) ensures exists k :: Target(c, child, k) {
      var k := CellOfName(c, n);
      assert Target(c, child, k);
    }
    if k: nat :| Target(c, child, k) {
      TargetNames(c, child, k);
      assert c[k].name in NamesOf(Entries(c), child);
    }
  }

  lemma AllowedFresh(c: seq<Slot>, e: Slot)
    requires CellsOk(c) && Allowed(Entries(c), Add(e))
    ensures FreshEntry(c, e) && LiveCount(c) < CELLS
  {
    EntriesSize(c);
    EntriesKeys(c, e.name);
    NoTargetNames(c, e.ino);
    forall k | 2 <= k < |c| && Live(c[k]) ensures c[k].ino != e.ino {
      assert !Target(c, e.ino, k);
    }
  }

  /**
   Any run of inserts and deletes, carried out until blocks run out, leaves the directory as the
   finite map the same operations leave.
   */
  method Session(p: Partition, ino: nat, ops: seq<Op>) returns (done: nat)
    requires Inv(p.V()) && DirAt(p.V(), ino)
    requires forall i :: 0 <= i < |ops| ==> Allowed(ApplyAll(Entries(CellsOf(p.V(), ino)), ops[..i]), ops[i])
    modifies p
    ensures done <= |ops| && Inv(p.V()) && DirAt(p.V(), ino)
    ensures Entries(CellsOf(p.V(), ino)) == ApplyAll(old(Entries(CellsOf(p.V(), ino))), ops[..done])
    ensures done < |ops| ==> ops[done].Add? && FreeCount(p.bits) == 0
    ensures forall j :: j in old(p.inodes) && j != ino ==> j in p.inodes && p.inodes[j] == old(p.inodes)[j]
  {
    hide Cells, Entries, DirOk, Inv, Allowed, FreeCount, LiveCount, IsSet, Owned, Apply;
    ghost var m := Entries(CellsOf(p.V(), ino));
    done := 0;
    while done < |ops|
      invariant 0 <= done <= |ops| && Inv(p.V()) && DirAt(p.V(), ino)
      invariant Entries(CellsOf(p.V(), ino)) == ApplyAll(m, ops[..done])
      invariant forall j :: j in old(p.inodes) && j != ino ==> j in p.inodes && p.inodes[j] == old(p.inodes)[j]
    {
      ghost var c := CellsOf(p.V(), ino);
      DirFacts(p.inodes[ino], p.disk);
      assert ops[..done + 1][..done] == ops[..done];
      match ops[done] {
        case Add(e) =>
          AllowedFresh(c, e);
          ghost var k;
          var ok;
          ok, k := SyncDirEntry(p, ino, e);
          if !ok { return; }
          ApplyAdd(Entries(c), e);
        case Drop(child) =>
          ghost var k;
          var ok;
          ok, k := DeleteDirEntry(p, ino, child);
          ApplyDrop(c, child, ok, k);
      }
      done := done + 1;
    }
  }

  lemma ApplyAdd(m: Dict, e: Slot)
    ensures Apply(m, Add(e)) == m[e.name := (e.ino, e.kind)]
  {
  }

  lemma ApplyDrop(c: seq<Slot>, child: word, ok: bool, k: nat)
    requires CellsOk(c)
    requires ok <==> exists i :: Target(c, child, i)
    requires ok ==> Target(c, child, k)
    ensures Apply(Entries(c), Drop(child)) == if ok then Entries(c) - {c[k].name} else Entries(c)
  {
    hide Entries, CellsOk, LiveCount;
    if ok {
      TargetNames(c, child, k);
    } else {
      NoTargetNames(c, child);
    }
  }
}

/**
 Whole runs of sys_write, sys_read and sys_lseek over any number of descriptors, several of which may
 share a file: the blocks behave like plain byte sequences with a cursor per descriptor.
 */
module FileSession {
  import opened Volume
  import opened FileData

  datatype Whence = SeekSet | SeekCur | SeekEnd

  datatype Call = SysWrite(fd: nat, buf: seq<byte>) | SysRead(fd: nat, count: nat)
                | SysSeek(fd: nat, offset: int, whence: Whence)

  /** What a call returns, and the bytes that a read puts in its buffer. */
  datatype Reply = Reply(ret: int, bytes: seq<byte>)

  /** What a caller sees: the bytes of each file and the position of each descriptor. */
  datatype View = View(files: map<nat, seq<byte>>, pos: seq<nat>)

  predicate WellPlaced(m: View, inos: seq<nat>) {
    && |m.pos| == |inos|
    && forall i :: 0 <= i < |inos| ==> inos[i] in m.files && m.pos[i] <= |m.files[inos[i]]|
  }

  /** Where a seek would go; it may not leave the file, nor go to its first byte. */
  function Target(size: nat, pos: nat, offset: int, whence: Whence): int {
    match whence
    case SeekSet => offset
    case SeekCur => pos + offset
    case SeekEnd => size + offset
  }

  predicate InFile(size: nat, pos: int) { 0 < pos <= size - 1 }

  /** The specification of one call: append and stand on the last byte, return the next bytes, or move. */
  function Effect(m: View, inos: seq<nat>, c: Call): (r: (View, Reply))
    requires WellPlaced(m, inos) && c.fd < |inos|
    ensures WellPlaced(r.0, inos)
  {
    var ino := inos[c.fd];
    match c
    case SysWrite(fd, buf) =>
      if buf == [] then (m, Reply(0, [])) else
        var bytes := m.files[ino] + buf;
        (View(m.files[ino := bytes], m.pos[fd := |bytes| - 1]), Reply(|buf|, []))
    case SysRead(fd, count) =>
      var n := Min(count, |m.files[ino]| - m.pos[fd]);
      (m.(pos := m.pos[fd := m.pos[fd] + n]),
       Reply(if n == 0 && count > 0 then -1 else n, m.files[ino][m.pos[fd]..m.pos[fd] + n]))
    case SysSeek(fd, offset, whence) =>
      var to := Target(|m.files[ino]|, m.pos[fd], offset, whence);
      if InFile(|m.files[ino]|, to) then (m.(pos := m.pos[fd := to]), Reply(to, [])) else (m, Reply(-1, []))
  }

  /** The view after a run, and the replies in order. */
  function Run(m: View, inos: seq<nat>, calls: seq<Call>): (r: (View, seq<Reply>))
    requires WellPlaced(m, inos) && forall c :: c in calls ==> c.fd < |inos|
    ensures WellPlaced(r.0, inos)
  {
    if calls == [] then (m, [])
    else
      var (m1, outs) := Run(m, inos, calls[..|calls| - 1]);
      var (m2, out) := Effect(m1, inos, calls[|calls| - 1]);
      (m2, outs + [out])
  }

  // ---------------------------------------------------------------- the concrete side

  function Inos(fds: seq<OpenFile>): (s: seq<nat>)
    ensures |s| == |fds| && forall i :: 0 <= i < |fds| ==> s[i] == fds[i].ino
  {
    seq(|fds|, i requires 0 <= i < |fds| => fds[i].ino)
  }

  function Positions(fds: seq<OpenFile>): (s: seq<nat>)
    reads fds
    ensures |s| == |fds| && forall i :: 0 <= i < |fds| ==> s[i] == fds[i].fdPos
  {
    seq(|fds|, i requires 0 <= i < |fds| reads fds => fds[i].fdPos)
  }

  function FilesOf(v: Vol, inos: seq<nat>): map<nat, seq<byte>> {
    map ino | ino in inos && ino in v.inodes :: Content(v.inodes[ino], v.disk)
  }

  ghost predicate Placed(v: Vol, inos: seq<nat>, pos: seq<nat>) {
    && |pos| == |inos|
    && forall i :: 0 <= i < |inos| ==> inos[i] in v.inodes && pos[i] <= v.inodes[inos[i]].size
  }

  ghost predicate AllFilesOk(v: Vol, inos: seq<nat>) {
    forall i :: 0 <= i < |inos| ==> inos[i] in v.inodes && FileOk(v.inodes[inos[i]], v.disk)
  }

  ghost predicate Sound(p: Partition, fds: seq<OpenFile>)
    reads p, fds
  {
    && Inv(p.V())
    && (forall i, j :: 0 <= i < j < |fds| ==> fds[i] != fds[j])
    && AllFilesOk(p.V(), Inos(fds)) && Placed(p.V(), Inos(fds), Positions(fds))
  }

  function Seen(p: Partition, fds: seq<OpenFile>): View
    reads p, fds
  {
    View(FilesOf(p.V(), Inos(fds)), Positions(fds))
  }

  lemma SeenPlaced(p: Partition, fds: seq<OpenFile>)
    requires Placed(p.V(), Inos(fds), Positions(fds))
    ensures WellPlaced(Seen(p, fds), Inos(fds))
  {
  }

  /** When a call is not carried out: no room for the bytes, or a read that ends past block 138. */
  ghost predicate Refused(v: Vol, ino: nat, pos: nat, c: Call) {
    ino in v.inodes
    && match c
       case SysWrite(_, buf) => buf != [] && NoRoom(v.inodes[ino], v.bits, |buf|)
       case SysRead(_, count) => count > 0 && SecOf(Min(pos + count, v.inodes[ino].size)) >= 139
       case SysSeek(_, _, _) => false
  }

  ghost predicate NoRoom(nd: Inode, bits: seq<bool>, count: nat) {
    nd.size + count >= MAX_BLOCKS * BLOCK_SIZE || FreeCount(bits) < Need(nd, count)
  }

  lemma OtherFile(v: Vol, w: Vol, ino: nat, j: nat)
    requires OthersKept(v, w, ino) && j in v.inodes && j != ino && FileOk(v.inodes[j], v.disk)
    ensures j in w.inodes && w.inodes[j] == v.inodes[j] && FileOk(w.inodes[j], w.disk)
    ensures Content(w.inodes[j], w.disk) == Content(v.inodes[j], v.disk)
  {
    hide Owned, Refs, AllBlocks;
    SameRefs(v.inodes[j], v.disk, w.disk);
    SameBlocks(v.inodes[j], v.disk, w.disk);
  }

  lemma SameBlocks(nd: Inode, d: map<word, Sector>, e: map<word, Sector>)
    requires Refs(nd, e) == Refs(nd, d) && SameOn(d, e, Owned(nd, d)) && FileOk(nd, d)
    ensures AllBlocks(nd, e) == AllBlocks(nd, d) && FileOk(nd, e)
    ensures Content(nd, e) == Content(nd, d)
  {
    hide AllBlocks, SecOf, OffOf, Content;
    var a := AllBlocks(nd, d);
    assert AllBlocks(nd, e) == Refs(nd, e)[..140];
    assert a == Refs(nd, d)[..140];
    forall k | 0 <= k < 140 && a[k] != 0 ensures Read(e, a[k]) == Read(d, a[k]) {
      assert Refs(nd, d)[k] == a[k];
    }
    SameContent(nd, d, nd, e, BlockCount(nd));
  }

  /** Appending to one file is one update of the map of files. */
  lemma AppendSeen(v: Vol, w: Vol, inos: seq<nat>, pos: seq<nat>, fd: nat, buf: seq<byte>)
    requires AllFilesOk(v, inos) && Placed(v, inos, pos) && fd < |inos| && buf != []
    requires Appended(v, w, inos[fd], buf)
    ensures AllFilesOk(w, inos) && Placed(w, inos, pos[fd := w.inodes[inos[fd]].size - 1])
    ensures LastByte(w.inodes[inos[fd]].size) == w.inodes[inos[fd]].size - 1
    ensures w.inodes[inos[fd]].size == |FilesOf(v, inos)[inos[fd]] + buf|
    ensures FilesOf(w, inos) == FilesOf(v, inos)[inos[fd] := FilesOf(v, inos)[inos[fd]] + buf]
  {
    hide FileOk, Content, OthersKept, Inv, IsSet, FreeCount, Need;
    var ino := inos[fd];
    WriteSeen(v, w, ino, buf);
    forall i | 0 <= i < |inos| && inos[i] != ino
      ensures inos[i] in w.inodes && w.inodes[inos[i]] == v.inodes[inos[i]] && FileOk(w.inodes[inos[i]], w.disk)
      ensures Content(w.inodes[inos[i]], w.disk) == Content(v.inodes[inos[i]], v.disk)
    {
      OtherFile(v, w, ino, inos[i]);
    }
  }

  lemma WriteSeen(v: Vol, w: Vol, ino: nat, buf: seq<byte>)
    requires Appended(v, w, ino, buf)
    ensures w.inodes[ino].size == v.inodes[ino].size + |buf| < MAX_BLOCKS * BLOCK_SIZE
    ensures buf != [] ==> LastByte(w.inodes[ino].size) == w.inodes[ino].size - 1
  {
    hide AllBlocks, Shape, Inv, OthersKept, Need, FreeCount, SecOf, OffOf, IsSet;
    assert |Content(w.inodes[ino], w.disk)| == |Content(v.inodes[ino], v.disk)| + |buf|;
  }

  /**
   sys_write on one descriptor: nothing for an empty buffer, else file_write. A refused call changes nothing that is
   seen.
   */
  method WriteCall(p: Partition, fds: seq<OpenFile>, fd: nat, buf: seq<byte>) returns (ok: bool, out: Reply)
    requires Sound(p, fds) && fd < |fds| && |buf| <= 0xC000_0000
    modifies p, fds
    ensures ok <==> !old(Refused(p.V(), fds[fd].ino, fds[fd].fdPos, SysWrite(fd, buf)))
    ensures !ok ==> Refused(p.V(), fds[fd].ino, fds[fd].fdPos, SysWrite(fd, buf)) && Seen(p, fds) == old(Seen(p, fds))
    ensures ok ==> Sound(p, fds) && Did(old(Seen(p, fds)), Inos(fds), SysWrite(fd, buf), Seen(p, fds), out)
  {
    hide SecOf, OffOf, Content, FileOk, Inv, FreeCount, Need, OthersKept, IsSet, FilesOf, Appended, Unharmed, Did,
         AllFilesOk,
         Placed, WellPlaced, Recovers;
    var f := fds[fd];
    ghost var v, pos, inos := p.V(), Positions(fds), Inos(fds);
    SoundAt(v, inos, pos, fd);
    out := Reply(0, []);
    if buf == [] {
      SeenPlaced(p, fds);
      NothingDid(Seen(p, fds), inos, fd);
      return true, out;
    }
    if p.inodes[f.ino].size + |buf| == MAX_BLOCKS * BLOCK_SIZE { return false, out; }
    var r := FileWrite(p, f, buf);
    ok, out := r != -1, Reply(r, []);
    if ok {
      AppendSeen(v, p.V(), inos, pos, fd, buf);
      AppendedInv(v, p.V(), f.ino, buf);
      assert Positions(fds) == pos[fd := p.inodes[f.ino].size - 1];
      WriteDid(v, p.V(), inos, pos, fd, buf);
    } else {
      RefusedAgain(v, p.V(), f.ino, buf);
      assert Positions(fds) == pos;
      UnharmedSeen(v, p.V(), inos, fd);
    }
  }

  lemma NothingDid(m: View, inos: seq<nat>, fd: nat)
    requires WellPlaced(m, inos) && fd < |inos|
    ensures Did(m, inos, SysWrite(fd, []), m, Reply(0, []))
  {
  }

  lemma WriteDid(v: Vol, w: Vol, inos: seq<nat>, pos: seq<nat>, fd: nat, buf: seq<byte>)
    requires Placed(v, inos, pos) && fd < |inos| && buf != [] && inos[fd] in w.inodes
    requires w.inodes[inos[fd]].size == |FilesOf(v, inos)[inos[fd]] + buf|
    requires FilesOf(w, inos) == FilesOf(v, inos)[inos[fd] := FilesOf(v, inos)[inos[fd]] + buf]
    ensures Did(View(FilesOf(v, inos), pos), inos, SysWrite(fd, buf),
                View(FilesOf(w, inos), pos[fd := w.inodes[inos[fd]].size - 1]), Reply(|buf|, []))
  {
    hide Content;
  }

  lemma RefusedAgain(v: Vol, w: Vol, ino: nat, buf: seq<byte>)
    requires Unharmed(v, w, ino)
    ensures ino in w.inodes && w.inodes[ino].size == v.inodes[ino].size
  {
  }

  /** A write that ran out of blocks shows in no file. */
  lemma UnharmedSeen(v: Vol, w: Vol, inos: seq<nat>, fd: nat)
    requires AllFilesOk(v, inos) && fd < |inos| && Unharmed(v, w, inos[fd])
    ensures FilesOf(w, inos) == FilesOf(v, inos)
  {
    hide Content, FileOk, OthersKept;
    forall i | 0 <= i < |inos|
      ensures inos[i] in w.inodes && Content(w.inodes[inos[i]], w.disk) == Content(v.inodes[inos[i]], v.disk)
    {
      if inos[i] != inos[fd] { OtherFile(v, w, inos[fd], inos[i]); }
    }
  }

  lemma AppendedInv(v: Vol, w: Vol, ino: nat, buf: seq<byte>)
    requires Appended(v, w, ino, buf)
    ensures Inv(w) && ino in w.inodes
  {
  }

  /** file_read on one of several descriptors: its own position moves, the others stay. */
  method ReadOne(p: Partition, fds: seq<OpenFile>, fd: nat, count: nat) returns (r: int, out: seq<byte>)
    requires fd < |fds| && forall i, j :: 0 <= i < j < |fds| ==> fds[i] != fds[j]
    requires var f := fds[fd];
      && f.ino in p.inodes && FileOk(p.inodes[f.ino], p.disk) && f.fdPos <= p.inodes[f.ino].size
      && f.fdPos + count < 0x1_0000_0000 && SecOf(Min(f.fdPos + count, p.inodes[f.ino].size)) < 139
    modifies fds
    ensures var f := fds[fd]; var n := Min(count, p.inodes[f.ino].size - old(f.fdPos));
      && Positions(fds) == old(Positions(fds))[fd := old(f.fdPos) + n]
      && out == Content(p.inodes[f.ino], p.disk)[old(f.fdPos)..old(f.fdPos) + n]
      && r == if n == 0 && count > 0 then -1 else n
  {
    hide SecOf, FileOk, Content;
    r, out := FileRead(p, fds[fd], count);
  }

  /** sys_read on one descriptor: nothing for a count of 0, else file_read. */
  method ReadCall(p: Partition, fds: seq<OpenFile>, fd: nat, count: nat) returns (ok: bool, out: Reply)
    requires Sound(p, fds) && fd < |fds| && count <= 0xC000_0000
    modifies fds
    ensures ok <==> !old(Refused(p.V(), fds[fd].ino, fds[fd].fdPos, SysRead(fd, count)))
    ensures !ok ==> Seen(p, fds) == old(Seen(p, fds)) && Positions(fds) == old(Positions(fds))
    ensures ok ==> Sound(p, fds) && Did(old(Seen(p, fds)), Inos(fds), SysRead(fd, count), Seen(p, fds), out)
  {
    hide SecOf, OffOf, Content, FileOk, Inv, FreeCount, Need, IsSet, FilesOf, Did, AllFilesOk, Placed, WellPlaced,
         Refused,
         Inos, Positions, Seen, Sound;
    out := Reply(0, []);
    ghost var v, pos, inos := p.V(), Positions(fds), Inos(fds);
    SoundParts(p, fds, fd);
    ReadRefused(v, fds[fd].ino, fds[fd].fdPos, fd, count);
    if count == 0 {
      NothingRead(v, inos, pos, fd);
      return true, out;
    }
    ok := SecOf(Min(fds[fd].fdPos + count, p.inodes[fds[fd].ino].size)) < 139;
    if ok {
      var r, bytes := ReadOne(p, fds, fd, count);
      out := Reply(r, bytes);
      ReadDid(v, inos, pos, fd, count, bytes);
      SoundAgain(p, fds);
    }
  }

  lemma NothingRead(v: Vol, inos: seq<nat>, pos: seq<nat>, fd: nat)
    requires Placed(v, inos, pos) && fd < |inos|
    ensures Did(View(FilesOf(v, inos), pos), inos, SysRead(fd, 0), View(FilesOf(v, inos), pos), Reply(0, []))
  {
    hide Content;
    FileSeen(v, inos, fd);
    forall i | 0 <= i < |inos|
      ensures inos[i] in FilesOf(v, inos) && |FilesOf(v, inos)[inos[i]]| == v.inodes[inos[i]].size
    {
      FileSeen(v, inos, i);
    }
    var bytes := FilesOf(v, inos)[inos[fd]];
    assert Min(0, |bytes| - pos[fd]) == 0;
    assert pos[fd := pos[fd] + 0] == pos && bytes[pos[fd]..pos[fd] + 0] == [];
  }

  /** sys_lseek on one descriptor. */
  method SeekCall(p: Partition, fds: seq<OpenFile>, fd: nat, offset: int, whence: Whence) returns (out: Reply)
    requires Sound(p, fds) && fd < |fds|
    modifies fds
    ensures Sound(p, fds) && Did(old(Seen(p, fds)), Inos(fds), SysSeek(fd, offset, whence), Seen(p, fds), out)
  {
    hide SecOf, OffOf, Content, FileOk, Inv, FilesOf, Did, AllFilesOk, Placed, WellPlaced, Inos, Seen, Sound;
    ghost var v, pos, inos := p.V(), Positions(fds), Inos(fds);
    SoundParts(p, fds, fd);
    var f := fds[fd];
    var size := p.inodes[f.ino].size;
    var to := 0;
    match whence {
      case SeekCur => to := f.fdPos + offset;
      case SeekSet => to := offset;
      case SeekEnd => to := size + offset;
    }
    SeekDid(v, inos, pos, fd, offset, whence);
    if to <= 0 || to > size - 1 { return Reply(-1, []); }
    f.fdPos := to;
    assert Positions(fds) == pos[fd := to];
    SoundAgain(p, fds);
    out := Reply(to, []);
  }

  lemma SeekDid(v: Vol, inos: seq<nat>, pos: seq<nat>, fd: nat, offset: int, whence: Whence)
    requires Placed(v, inos, pos) && fd < |inos|
    ensures var size := v.inodes[inos[fd]].size; var to := Target(size, pos[fd], offset, whence);
      if InFile(size, to) then
        Placed(v, inos, pos[fd := to])
        && Did(View(FilesOf(v, inos), pos), inos, SysSeek(fd, offset, whence), View(FilesOf(v, inos), pos[fd := to]),
          Reply(to, []))
      else Did(View(FilesOf(v, inos), pos), inos, SysSeek(fd, offset, whence), View(FilesOf(v, inos), pos), Reply(-1,
        []))
  {
    hide Content;
    FileSeen(v, inos, fd);
    forall i | 0 <= i < |inos|
      ensures inos[i] in FilesOf(v, inos) && |FilesOf(v, inos)[inos[i]]| == v.inodes[inos[i]].size
    {
      FileSeen(v, inos, i);
    }
  }

  lemma SoundParts(p: Partition, fds: seq<OpenFile>, fd: nat)
    requires Sound(p, fds) && fd < |fds|
    ensures Inv(p.V()) && AllFilesOk(p.V(), Inos(fds)) && Placed(p.V(), Inos(fds), Positions(fds))
    ensures forall i, j :: 0 <= i < j < |fds| ==> fds[i] != fds[j]
    ensures Seen(p, fds) == View(FilesOf(p.V(), Inos(fds)), Positions(fds))
    ensures Inos(fds)[fd] == fds[fd].ino && fds[fd].ino in p.inodes && FileOk(p.inodes[fds[fd].ino], p.disk)
    ensures Positions(fds)[fd] == fds[fd].fdPos <= p.inodes[fds[fd].ino].size < MAX_BLOCKS * BLOCK_SIZE
    ensures p.V().inodes == p.inodes && p.V().disk == p.disk
  {
    hide FileOk, Inv;
    SoundAt(p.V(), Inos(fds), Positions(fds), fd);
  }

  lemma SoundAgain(p: Partition, fds: seq<OpenFile>)
    requires Inv(p.V()) && AllFilesOk(p.V(), Inos(fds)) && Placed(p.V(), Inos(fds), Positions(fds))
    requires forall i, j :: 0 <= i < j < |fds| ==> fds[i] != fds[j]
    ensures Sound(p, fds) && Seen(p, fds) == View(FilesOf(p.V(), Inos(fds)), Positions(fds))
  {
    hide FileOk, Inv;
  }

  lemma ReadRefused(v: Vol, ino: nat, pos: nat, fd: nat, count: nat)
    requires ino in v.inodes
    ensures Refused(v, ino, pos, SysRead(fd, count)) <==>
      count > 0 && SecOf(Min(pos + count, v.inodes[ino].size)) >= 139
  {
  }

  lemma SoundAt(v: Vol, inos: seq<nat>, pos: seq<nat>, fd: nat)
    requires AllFilesOk(v, inos) && Placed(v, inos, pos) && fd < |inos|
    ensures inos[fd] in v.inodes && FileOk(v.inodes[inos[fd]], v.disk)
    ensures pos[fd] <= v.inodes[inos[fd]].size < MAX_BLOCKS * BLOCK_SIZE
  {
    SizeBound(v.inodes[inos[fd]], v.disk);
  }

  lemma ReadDid(v: Vol, inos: seq<nat>, pos: seq<nat>, fd: nat, count: nat, out: seq<byte>)
    requires Placed(v, inos, pos) && fd < |inos|
    requires var n := Min(count, v.inodes[inos[fd]].size - pos[fd]);
      out == Content(v.inodes[inos[fd]], v.disk)[pos[fd]..pos[fd] + n]
    ensures var n := Min(count, v.inodes[inos[fd]].size - pos[fd]);
      && Placed(v, inos, pos[fd := pos[fd] + n])
      && Did(View(FilesOf(v, inos), pos), inos, SysRead(fd, count),
             View(FilesOf(v, inos), pos[fd := pos[fd] + n]), Reply(if n == 0 && count > 0 then -1 else n, out))
  {
    hide Content;
    FileSeen(v, inos, fd);
    forall i | 0 <= i < |inos|
      ensures inos[i] in FilesOf(v, inos) && |FilesOf(v, inos)[inos[i]]| == v.inodes[inos[i]].size
    {
      FileSeen(v, inos, i);
    }
  }

  lemma FileSeen(v: Vol, inos: seq<nat>, fd: nat)
    requires fd < |inos| && inos[fd] in v.inodes
    ensures inos[fd] in FilesOf(v, inos) && FilesOf(v, inos)[inos[fd]] == Content(v.inodes[inos[fd]], v.disk)
  {
  }

  ghost predicate Did(m: View, inos: seq<nat>, c: Call, n: View, out: Reply) {
    c.fd < |inos| && WellPlaced(m, inos) && (n, out) == Effect(m, inos, c)
  }

  lemma SizeBound(nd: Inode, disk: map<word, Sector>)
    requires FileOk(nd, disk)
    ensures nd.size < MAX_BLOCKS * BLOCK_SIZE
  {
  }

  ghost predicate Ran(m: View, inos: seq<nat>, calls: seq<Call>, n: View, outs: seq<Reply>) {
    WellPlaced(m, inos) && (forall c :: c in calls ==> c.fd < |inos|) && (n, outs) == Run(m, inos, calls)
  }

  lemma RunStep(m: View, inos: seq<nat>, calls: seq<Call>, k: nat, n: View, outs: seq<Reply>, n': View, out: Reply)
    requires k < |calls| && Ran(m, inos, calls[..k], n, outs) && Did(n, inos, calls[k], n', out)
    ensures Ran(m, inos, calls[..k + 1], n', outs + [out])
  {
    assert calls[..k + 1][..k] == calls[..k];
  }

  /**
   Any run of calls, carried out up to the first refused one, leaves exactly the view the
   specification computes and returns exactly the replies it computes. The refused call leaves that view as it is.
   */
  method Session(p: Partition, fds: seq<OpenFile>, calls: seq<Call>) returns (done: nat, outs: seq<Reply>)
    requires Sound(p, fds)
    requires forall c :: c in calls ==> c.fd < |fds|
    requires forall c :: c in calls && c.SysWrite? ==> |c.buf| <= 0xC000_0000
    requires forall c :: c in calls && c.SysRead? ==> c.count <= 0xC000_0000
    modifies p, fds
    ensures done <= |calls| && Ran(old(Seen(p, fds)), Inos(fds), calls[..done], Seen(p, fds), outs)
    ensures done == |calls| ==> Sound(p, fds)
    ensures done < |calls| ==>
      var f := fds[calls[done].fd]; Refused(p.V(), f.ino, f.fdPos, calls[done])
  {
    hide Seen, Sound;
    done, outs := 0, [];
    ghost var m := Seen(p, fds);
    ghost var inos := Inos(fds);
    StartRun(p, fds);
    while done < |calls|
      invariant 0 <= done <= |calls| && Sound(p, fds)
      invariant Ran(m, inos, calls[..done], Seen(p, fds), outs)
    {
      ghost var n := Seen(p, fds);
      var ok, out := true, Reply(0, []);
      match calls[done] {
        case SysWrite(fd, buf) => ok, out := WriteCall(p, fds, fd, buf);
        case SysRead(fd, count) => ok, out := ReadCall(p, fds, fd, count);
        case SysSeek(fd, offset, whence) => out := SeekCall(p, fds, fd, offset, whence);
      }
      if !ok { return; }
      RunStep(m, inos, calls, done, n, outs, Seen(p, fds), out);
      outs := outs + [out];
      done := done + 1;
    }
  }

  lemma StartRun(p: Partition, fds: seq<OpenFile>)
    requires Sound(p, fds)
    ensures Ran(Seen(p, fds), Inos(fds), [], Seen(p, fds), [])
  {
    SeenPlaced(p, fds);
  }
}

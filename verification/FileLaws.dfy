/**
 What users of write, read and lseek may rely on, over whole runs of the specification that the calls follow.
 */
module FileLaws {
  import opened Volume
  import opened FileData
  import opened FileSession

  predicate Fits(inos: seq<nat>, calls: seq<Call>) { forall c :: c in calls ==> c.fd < |inos| }

  /** What a run of calls writes to one file, in order. */
  function Written(inos: seq<nat>, calls: seq<Call>, ino: nat): seq<byte>
    requires Fits(inos, calls)
  {
    if calls == [] then []
    else
      var c := calls[|calls| - 1];
      Written(inos, calls[..|calls| - 1], ino) + if c.SysWrite? && inos[c.fd] == ino then c.buf else []
  }

  /** Files only grow: after any run a file holds what it held, then every buffer written to it, in order. */
  lemma {:induction false} FilesGrow(m: View, inos: seq<nat>, calls: seq<Call>, ino: nat)
    requires WellPlaced(m, inos) && Fits(inos, calls) && ino in m.files
    ensures var n := Run(m, inos, calls).0; ino in n.files && n.files[ino] == m.files[ino] + Written(inos, calls, ino)
  {
    if calls != [] {
      var before, c := calls[..|calls| - 1], calls[|calls| - 1];
      FilesGrow(m, inos, before, ino);
      var k := Run(m, inos, before).0;
      var w := Written(inos, before, ino);
      if c.SysWrite? && inos[c.fd] == ino {
        assert (m.files[ino] + w) + c.buf == m.files[ino] + (w + c.buf);
      } else {
        assert w + [] == w;
      }
    }
  }

  /** A descriptor that no call of a run names stays where it is. */
  lemma {:induction false} OthersStay(m: View, inos: seq<nat>, calls: seq<Call>, fd: nat)
    requires WellPlaced(m, inos) && Fits(inos, calls) && fd < |inos| && forall c :: c in calls ==> c.fd != fd
    ensures var n := Run(m, inos, calls).0; |n.pos| == |m.pos| && n.pos[fd] == m.pos[fd]
  {
    if calls != [] { OthersStay(m, inos, calls[..|calls| - 1], fd); }
  }

  // ---------------------------------------------------------------- seeking

  /**
   The three ways to seek: from the start the target is the offset itself, from the position the sum, from the end the
   size and the offset. A target is reached, and returned, unless it is the first byte or lies outside the file.
   */
  lemma SeekRule(m: View, inos: seq<nat>, fd: nat, offset: int, whence: Whence)
    requires WellPlaced(m, inos) && fd < |inos|
    ensures var bytes, pos := m.files[inos[fd]], m.pos[fd];
      var to := if whence.SeekCur? then pos + offset else if whence.SeekEnd? then |bytes| + offset else offset;
      var (n, r) := Effect(m, inos, SysSeek(fd, offset, whence));
      && n.files == m.files && (forall i :: 0 <= i < |inos| && i != fd ==> n.pos[i] == m.pos[i])
      && (0 < to < |bytes| ==> n.pos[fd] == to && r == Reply(to, []))
      && (!(0 < to < |bytes|) ==> n == m && r == Reply(-1, []))
  {
  }

  // ---------------------------------------------------------------- reading back

  lemma RunMore(m: View, inos: seq<nat>, calls: seq<Call>, c: Call)
    requires WellPlaced(m, inos) && Fits(inos, calls) && c.fd < |inos|
    ensures forall d :: d in calls + [c] ==> d.fd < |inos|
    ensures var (k, outs) := Run(m, inos, calls); var (n, out) := Effect(k, inos, c);
      Run(m, inos, calls + [c]) == (n, outs + [out])
  {
    hide Effect;
    assert (calls + [c])[..|calls|] == calls;
  }

  lemma RunThree(m: View, inos: seq<nat>, a: Call, b: Call, c: Call, k: View, l: View, n: View, outs: seq<Reply>)
    requires WellPlaced(m, inos) && a.fd < |inos| && b.fd < |inos| && c.fd < |inos| && |outs| == 3
    requires Effect(m, inos, a) == (k, outs[0])
    requires WellPlaced(k, inos) && Effect(k, inos, b) == (l, outs[1])
    requires WellPlaced(l, inos) && Effect(l, inos, c) == (n, outs[2])
    ensures Run(m, inos, [a, b, c]) == (n, outs)
  {
    hide Effect, Run, WellPlaced;
    RunNone(m, inos);
    RunMore(m, inos, [], a);
    assert [] + [a] == [a] && [] + [outs[0]] == [outs[0]];
    assert Run(m, inos, [a]) == (k, [outs[0]]);
    RunMore(m, inos, [a], b);
    assert [a] + [b] == [a, b] && [outs[0]] + [outs[1]] == [outs[0], outs[1]];
    assert Run(m, inos, [a, b]) == (l, [outs[0], outs[1]]);
    RunMore(m, inos, [a, b], c);
    assert [a, b] + [c] == [a, b, c] && [outs[0], outs[1]] + [outs[2]] == outs;
  }

  lemma RunNone(m: View, inos: seq<nat>)
    requires WellPlaced(m, inos)
    ensures Run(m, inos, []) == (m, [])
  {
  }

  /**
   What is written is read back from where it begins, through the same descriptor, if the file was not empty. Else
   lseek refuses the first byte, and the read finds only the last one.
   */
  lemma WriteReadBack(m: View, inos: seq<nat>, fd: nat, buf: seq<byte>)
    requires WellPlaced(m, inos) && fd < |inos| && buf != []
    ensures var size := |m.files[inos[fd]]|;
      var r := Run(m, inos, [SysWrite(fd, buf), SysSeek(fd, size, SeekSet), SysRead(fd, |buf|)]).1;
      if size > 0 then r == [Reply(|buf|, []), Reply(size, []), Reply(|buf|, buf)]
      else r == [Reply(|buf|, []), Reply(-1, []), Reply(1, [buf[|buf| - 1]])]
  {
    hide Run, Effect;
    if |m.files[inos[fd]]| > 0 { ReadBack(m, inos, fd, buf); } else { ReadLast(m, inos, fd, buf); }
  }

  lemma ReadBack(m: View, inos: seq<nat>, fd: nat, buf: seq<byte>)
    requires WellPlaced(m, inos) && fd < |inos| && buf != [] && |m.files[inos[fd]]| > 0
    ensures var size := |m.files[inos[fd]]|;
      Run(m, inos, [SysWrite(fd, buf), SysSeek(fd, size, SeekSet), SysRead(fd, |buf|)]).1 ==
      [Reply(|buf|, []), Reply(size, []), Reply(|buf|, buf)]
  {
    hide Run, Effect;
    var was, size := m.files[inos[fd]], |m.files[inos[fd]]|;
    var bytes := was + buf;
    var k := View(m.files[inos[fd] := bytes], m.pos[fd := |bytes| - 1]);
    WriteThenPlaced(m, inos, fd, buf);
    SeekRule(k, inos, fd, size, SeekSet);
    var l := Effect(k, inos, SysSeek(fd, size, SeekSet)).0;
    TailSlice(was, buf, 0, |buf|);
    assert bytes[size..size + |buf|] == buf[0..|buf|] == buf;
    ReadAt(l, inos, fd, |buf|);
    RunThree(m, inos, SysWrite(fd, buf), SysSeek(fd, size, SeekSet), SysRead(fd, |buf|), k, l,
             Effect(l, inos, SysRead(fd, |buf|)).0, [Reply(|buf|, []), Reply(size, []), Reply(|buf|, buf)]);
  }

  lemma ReadLast(m: View, inos: seq<nat>, fd: nat, buf: seq<byte>)
    requires WellPlaced(m, inos) && fd < |inos| && buf != [] && m.files[inos[fd]] == []
    ensures Run(m, inos, [SysWrite(fd, buf), SysSeek(fd, 0, SeekSet), SysRead(fd, |buf|)]).1 ==
      [Reply(|buf|, []), Reply(-1, []), Reply(1, [buf[|buf| - 1]])]
  {
    hide Run;
    var bytes := m.files[inos[fd]] + buf;
    assert bytes == buf;
    var k := View(m.files[inos[fd] := bytes], m.pos[fd := |bytes| - 1]);
    WriteThenPlaced(m, inos, fd, buf);
    SeekRule(k, inos, fd, 0, SeekSet);
    assert bytes[|bytes| - 1..|bytes|] == [buf[|buf| - 1]];
    ReadAt(k, inos, fd, |buf|);
    RunThree(m, inos, SysWrite(fd, buf), SysSeek(fd, 0, SeekSet), SysRead(fd, |buf|), k, k,
             Effect(k, inos, SysRead(fd, |buf|)).0,
             [Reply(|buf|, []), Reply(-1, []), Reply(1, [buf[|buf| - 1]])]);
  }

  /** A read returns the bytes from the position on, as many as there are up to the count. */
  lemma ReadAt(m: View, inos: seq<nat>, fd: nat, count: nat)
    requires WellPlaced(m, inos) && fd < |inos|
    ensures var bytes, p := m.files[inos[fd]], m.pos[fd]; var (n, r) := Effect(m, inos, SysRead(fd, count));
      && (0 < count <= |bytes| - p ==> r == Reply(count, bytes[p..p + count]))
      && (|bytes| - p < count ==> r == Reply(if p == |bytes| then -1 else |bytes| - p, bytes[p..]))
      && n.files == m.files && n.pos == m.pos[fd := p + |r.bytes|]
  {
    var bytes, p := m.files[inos[fd]], m.pos[fd];
    assert bytes[p..|bytes|] == bytes[p..];
  }

  lemma WriteThenPlaced(m: View, inos: seq<nat>, fd: nat, buf: seq<byte>)
    requires WellPlaced(m, inos) && fd < |inos| && buf != []
    ensures var bytes := m.files[inos[fd]] + buf; var k := View(m.files[inos[fd] := bytes], m.pos[fd := |bytes| - 1]);
      WellPlaced(k, inos) && Effect(m, inos, SysWrite(fd, buf)) == (k, Reply(|buf|, []))
  {
  }

  /** Two reads in a row return what one read of both counts returns, up to where the file ends. */
  lemma ReadsJoin(m: View, inos: seq<nat>, fd: nat, a: nat, b: nat)
    requires WellPlaced(m, inos) && fd < |inos|
    ensures var (k, r) := Effect(m, inos, SysRead(fd, a)); var (n, s) := Effect(k, inos, SysRead(fd, b));
      Effect(m, inos, SysRead(fd, a + b)).0 == n && Effect(m, inos, SysRead(fd, a + b)).1.bytes == r.bytes + s.bytes
  {
    var bytes, p := m.files[inos[fd]], m.pos[fd];
    var x := Min(a, |bytes| - p);
    var y := Min(b, |bytes| - p - x);
    Adjacent(bytes, p, p + x, p + x + y);
  }
}

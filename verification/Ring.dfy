/**
 The ring buffer behind a pipe, and reading and writing a pipe through it. Where the code would put the caller
 to sleep, a method returns and says so.
 */
module Ring {

  const SIZE: nat := 64
  const CAPACITY: nat := 63
  const MINUS_ONE: nat := 0xFFFF_FFFF

  function NextPos(p: nat): nat { (p + 1) % SIZE }

  /** The bytes between tail and head, around the end of the buffer. */
  function Between(b: seq<char>, tail: nat, head: nat): seq<char>
    requires |b| == SIZE && tail < SIZE && head < SIZE
  {
    if tail <= head then b[tail..head] else b[tail..] + b[..head]
  }

  lemma PutMore(b: seq<char>, tail: nat, head: nat, c: char)
    requires |b| == SIZE && tail < SIZE && head < SIZE && NextPos(head) != tail
    ensures Between(b[head := c], tail, NextPos(head)) == Between(b, tail, head) + [c]
  {
    var d := b[head := c];
    if tail <= head {
      if head + 1 < SIZE {
        assert d[tail..head + 1] == d[tail..head] + [c];
        assert d[tail..head] == b[tail..head];
      } else {
        assert d[tail..] == d[tail..head] + [c];
        assert d[tail..head] == b[tail..head];
      }
    } else {
      assert d[tail..] == b[tail..];
      assert d[..head + 1] == b[..head] + [c];
    }
  }

  lemma GetOne(b: seq<char>, tail: nat, head: nat)
    requires |b| == SIZE && tail < SIZE && head < SIZE && head != tail
    ensures Between(b, tail, head) == [b[tail]] + Between(b, NextPos(tail), head)
  {
    if tail < head {
      assert NextPos(tail) == tail + 1;
      assert b[tail..head] == [b[tail]] + b[tail + 1..head];
    } else if tail + 1 < SIZE {
      assert NextPos(tail) == tail + 1;
      var a, c := b[tail + 1..], b[..head];
      assert b[tail..] == [b[tail]] + a;
      assert [b[tail]] + a + c == [b[tail]] + (a + c);
    } else {
      assert NextPos(tail) == 0;
      assert b[tail..] == [b[tail]];
      assert b[0..head] == b[..head];
    }
  }

  class IoQueue {
    const buffer: array<char>
    var head: nat
    var tail: nat

    ghost predicate Valid()
      reads this, buffer
    {
      buffer.Length == SIZE && head < SIZE && tail < SIZE
    }

    ghost function Contents(): seq<char>
      reads this, buffer
      requires Valid()
    {
      Between(buffer[..], tail, head)
    }

    /** ioqueue_init on a fresh page. */
    constructor ()
      ensures Valid() && Contents() == [] && fresh(buffer)
    {
      buffer := new char[SIZE](_ => '\0');
      head, tail := 0, 0;
    }

    predicate Empty()
      reads this
    {
      head == tail
    }

    predicate Full()
      reads this
    {
      NextPos(head) == tail
    }

    function Length(): nat
      reads this
      requires head < SIZE && tail < SIZE
    {
      if head >= tail then head - tail else SIZE - (tail - head)
    }

    lemma Counts()
      requires Valid()
      ensures Length() == |Contents()| <= CAPACITY
      ensures (Empty() <==> Contents() == []) && (Full() <==> |Contents()| == CAPACITY)
    {
    }

    /** ioq_putchar; false where it would sleep because the ring is full. */
    method PutChar(c: char) returns (done: bool)
      requires Valid()
      modifies this`head, buffer
      ensures Valid() && done == (|old(Contents())| < 63)
      ensures Contents() == if done then old(Contents()) + [c] else old(Contents())
    {
      Counts();
      if Full() { return false; }
      PutMore(buffer[..], tail, head, c);
      ghost var was := buffer[..];
      buffer[head] := c;
      assert buffer[..] == was[head := c];
      head := NextPos(head);
      done := true;
    }

    /** ioq_getchar; false where it would sleep because the ring is empty. */
    method GetChar() returns (done: bool, c: char)
      requires Valid()
      modifies this`tail
      ensures Valid() && done == (old(Contents()) != [])
      ensures old(Contents()) == if done then [c] + Contents() else Contents()
    {
      c := '\0';
      Counts();
      if Empty() { return false, c; }
      GetOne(buffer[..], tail, head);
      c := buffer[tail];
      tail := NextPos(tail);
      done := true;
    }

    /** pipe_read of at most count bytes: what is there, at once; -1 as an unsigned word if that is nothing. */
    method PipeRead(count: nat) returns (r: nat, bytes: seq<char>)
      requires Valid()
      modifies this`tail
      ensures Valid()
      ensures bytes == Head(old(Contents()), count) && Contents() == old(Contents())[|bytes|..]
      ensures r == if bytes == [] then MINUS_ONE else |bytes|
    {
      Counts();
      var len := Length();
      var size := if len > count then count else len;
      ghost var was := Contents();
      bytes := [];
      while |bytes| < size
        invariant Valid() && |bytes| <= size <= |was|
        invariant bytes == was[..|bytes|] && Contents() == was[|bytes|..]
      {
        var done, c := GetChar();
        assert done;
        bytes := bytes + [c];
      }
      r := if |bytes| == 0 then MINUS_ONE else |bytes|;
    }

    /**
     The loop of pipe_write, from its start or from where the writer slept: it stores bytes until it has size or the
     ring is full.
     */
    method PutBytes(w: Writer) returns (next: Writer, sleeps: bool)
      requires Valid() && WriterOk(w)
      modifies this`head, buffer
      ensures Valid() && next == Moved(w, CAPACITY - |old(Contents())|) && (sleeps <==> next.stored < next.size)
      ensures Contents() == old(Contents()) + Stores(w, CAPACITY - |old(Contents())|)
    {
      hide Between;
      Counts();
      ghost var was := Contents();
      var k := w.stored;
      while k < w.size
        invariant Valid() && w.stored <= k <= w.size && |was| + k - w.stored <= CAPACITY
        invariant Contents() == was + w.buf[w.stored..k]
      {
        var done := PutChar(w.buf[k]);
        if !done { return w.(stored := k), true; }
        assert w.buf[w.stored..k + 1] == w.buf[w.stored..k] + [w.buf[k]];
        k := k + 1;
      }
      next, sleeps := w.(stored := k), false;
    }

    /**
     pipe_write: either all bytes go in, or the ring fills up and the writer sleeps before its next byte, the last it
     will store.
     */
    method PipeWrite(buf: seq<char>) returns (w: Writer, sleeps: bool)
      requires Valid()
      modifies this`head, buffer
      ensures Valid() && WriterOk(w) && w.buf == buf
      ensures sleeps <==> |buf| > CAPACITY - |old(Contents())|
      ensures w == if sleeps then Writer(buf, SIZE - |old(Contents())|, CAPACITY - |old(Contents())|)
        else Writer(buf, |buf|, |buf|)
      ensures Contents() == old(Contents()) + Head(buf, CAPACITY - |old(Contents())|)
    {
      hide Between;
      Counts();
      var left := SIZE - Length();
      w := Writer(buf, if left > |buf| then |buf| else left, 0);
      StoresHead(w, CAPACITY - |Contents()|);
      w, sleeps := PutBytes(w);
    }
  }

  /** A call of pipe_write under way: it will store the first `size` bytes of its buffer and return that number. */
  datatype Writer = Writer(buf: seq<char>, size: nat, stored: nat)

  predicate WriterOk(w: Writer) { w.stored <= w.size <= |w.buf| }

  /** What a writer stores while there is room for n bytes. */
  function Stores(w: Writer, n: int): (r: seq<char>)
    requires WriterOk(w)
    ensures |r| == Moved(w, n).stored - w.stored
  {
    w.buf[w.stored..Moved(w, n).stored]
  }

  function Moved(w: Writer, n: int): (r: Writer)
    requires WriterOk(w)
    ensures WriterOk(r) && r.stored >= w.stored && (n > 0 && w.stored < w.size ==> r.stored > w.stored)
  {
    w.(stored := if n < 0 then w.stored else if w.stored + n < w.size then w.stored + n else w.size)
  }

  lemma StoresHead(w: Writer, n: nat)
    requires WriterOk(w) && w.stored == 0 && (w.size == |w.buf| || n < w.size)
    ensures Stores(w, n) == Head(w.buf, n)
  {
  }

  /**
   A writer that slept and is woken when there is room stores one byte and returns: 64 less the length it first saw.
   */
  lemma WokenWriter(len: nat, buf: seq<char>, n: nat)
    requires len <= CAPACITY < len + |buf| && n > 0
    ensures var w := Writer(buf, SIZE - len, CAPACITY - len); WriterOk(w) && Moved(w, n) == w.(stored := w.size)
    ensures var w := Writer(buf, SIZE - len, CAPACITY - len); Stores(w, n) == [buf[CAPACITY - len]]
  {
  }

  /** The first n elements, or all of them. */
  function Head(s: seq<char>, n: int): (r: seq<char>)
    ensures r <= s && |r| == if n < 0 then 0 else if n < |s| then n else |s|
  {
    if n < 0 then [] else if n < |s| then s[..n] else s
  }

  // ---------------------------------------------------------------- runs

  /** A write, a read, or one more pass of the i-th sleeping writer through its loop. */
  datatype Op = Write(bytes: seq<char>) | Read(count: nat) | Wake(i: nat)

  /** What is left in the pipe, everything that went in, everything that came out, and the writers asleep. */
  datatype Flow = Flow(inside: seq<char>, sent: seq<char>, got: seq<char>, asleep: seq<Writer>)

  predicate FlowOk(f: Flow) {
    |f.inside| <= CAPACITY && forall i :: 0 <= i < |f.asleep| ==>
      WriterOk(f.asleep[i]) && f.asleep[i].stored < f.asleep[i].size
  }

  function Apply(f: Flow, op: Op): (g: Flow)
    requires FlowOk(f)
    ensures FlowOk(g)
  {
    var room := CAPACITY - |f.inside|;
    match op
    case Write(bytes) =>
      var w := Head(bytes, room);
      Flow(f.inside + w, f.sent + w, f.got, if |bytes| > room then f.asleep + [Writer(bytes, room + 1, room)]
        else f.asleep)
    case Read(count) =>
      var r := Head(f.inside, count);
      Flow(f.inside[|r|..], f.sent, f.got + r, f.asleep)
    case Wake(i) =>
      if i >= |f.asleep| then f
      else
        var w, next := Stores(f.asleep[i], room), Moved(f.asleep[i], room);
        Flow(f.inside + w, f.sent + w, f.got,
             if next.stored < next.size then f.asleep[i := next] else f.asleep[..i] + f.asleep[i + 1..])
  }

  function After(f: Flow, ops: seq<Op>): (r: Flow)
    requires FlowOk(f)
    ensures FlowOk(r)
    decreases |ops|
  {
    if ops == [] then f else After(Apply(f, ops[0]), ops[1..])
  }

  /** Whatever the order of reads, writes and wake-ups, what was read so far is what was written first. */
  lemma {:induction false} FirstInFirstOut(f: Flow, ops: seq<Op>)
    requires FlowOk(f) && f.sent == f.got + f.inside
    ensures var r := After(f, ops); r.sent == r.got + r.inside && r.got <= r.sent
    decreases |ops|
  {
    if ops != [] {
      var g := Apply(f, ops[0]);
      if ops[0].Read? {
        var r := Head(f.inside, ops[0].count);
        assert f.inside == r + f.inside[|r|..];
      }
      assert g.sent == g.got + g.inside;
      FirstInFirstOut(g, ops[1..]);
    }
  }

  function Empty(): Flow { Flow([], [], [], []) }

  /**
   The ring buffer, driven through pipe_read and pipe_write by any number of callers, goes through exactly those
   states.
   */
  method Session(q: IoQueue, ops: seq<Op>) returns (sent: seq<char>, got: seq<char>, asleep: seq<Writer>)
    requires q.Valid() && q.Contents() == []
    modifies q, q.buffer
    ensures q.Valid() && After(Empty(), ops) == Flow(q.Contents(), sent, got, asleep)
    ensures sent == got + q.Contents()
  {
    hide Between, After, Head, Stores, Moved;
    sent, got, asleep := [], [], [];
    var i := 0;
    Start(ops);
    q.Counts();
    while i < |ops|
      invariant 0 <= i <= |ops| && q.Valid() && FlowOk(Flow(q.Contents(), sent, got, asleep))
      invariant After(Empty(), ops) == After(Flow(q.Contents(), sent, got, asleep), ops[i..])
    {
      ghost var f := Flow(q.Contents(), sent, got, asleep);
      Next(f, ops, i);
      match ops[i] {
        case Write(bytes) =>
          var w, sleeps := q.PipeWrite(bytes);
          WriteIs(f, bytes, w.stored);
          sent := sent + bytes[..w.stored];
          if sleeps { asleep := asleep + [w]; }
        case Read(count) =>
          var r, bytes := q.PipeRead(count);
          got := got + bytes;
        case Wake(k) =>
          if k < |asleep| {
            var w, sleeps := q.PutBytes(asleep[k]);
            StoresIs(asleep[k], CAPACITY - |f.inside|);
            sent := sent + w.buf[asleep[k].stored..w.stored];
            asleep := if sleeps then asleep[k := w] else asleep[..k] + asleep[k + 1..];
          }
      }
      q.Counts();
      i := i + 1;
    }
    Finish(Flow(q.Contents(), sent, got, asleep));
    assert ops[i..] == [];
    FirstInFirstOut(Empty(), ops);
  }

  lemma StoresIs(w: Writer, n: int)
    requires WriterOk(w)
    ensures Moved(w, n).buf == w.buf && w.stored <= Moved(w, n).stored <= |w.buf|
    ensures Stores(w, n) == w.buf[w.stored..Moved(w, n).stored]
  {
  }

  lemma Start(ops: seq<Op>)
    ensures ops[0..] == ops
  {
  }

  lemma Finish(f: Flow)
    requires FlowOk(f)
    ensures After(f, []) == f
  {
  }

  lemma Next(f: Flow, ops: seq<Op>, i: nat)
    requires FlowOk(f) && i < |ops|
    ensures FlowOk(Apply(f, ops[i])) && After(f, ops[i..]) == After(Apply(f, ops[i]), ops[i + 1..])
  {
    assert ops[i..][0] == ops[i] && ops[i..][1..] == ops[i + 1..];
  }

  lemma WriteIs(f: Flow, bytes: seq<char>, n: nat)
    requires |f.inside| <= CAPACITY && n <= |bytes|
      && n == if |bytes| > CAPACITY - |f.inside| then CAPACITY - |f.inside| else |bytes|
    ensures Head(bytes, CAPACITY - |f.inside|) == bytes[..n]
  {
  }
}

/**
 The block layer of one mounted partition: 512-byte sectors, the in-memory block
 bitmap, and inodes that name their blocks through twelve direct addresses and one
 indirect table stored on disk as little-endian words.
 */
module Volume {

  const BLOCK_SIZE: nat := 512
  const DIRECT: nat := 12
  const MAX_BLOCKS: nat := 140

  type byte = x: int | 0 <= x < 0x100
  type word = x: int | 0 <= x < 0x1_0000_0000
  type Sector = s: seq<byte> | |s| == 512 witness seq(512, _ => 0)
  type Sectors13 = s: seq<word> | |s| == 13 witness seq(13, _ => 0)

  /** i_bsize and i_sectors of an inode; the other fields do not concern blocks. */
  datatype Inode = Inode(size: nat, sectors: Sectors13)

  /** A snapshot of a partition. `reserved` are the blocks that no inode owns but whose bit is set. */
  datatype Vol = Vol(start: nat, bits: seq<bool>, disk: map<word, Sector>, inodes: map<nat, Inode>,
                     reserved: set<word>)

  function ZeroSector(): Sector { seq(512, _ => 0) }

  function NoTable(): seq<word> { seq(128, _ => 0) }

  // ---------------------------------------------------------------- words on disk

  function WordAt(b: seq<byte>, off: nat): word
    requires off + 4 <= |b|
  {
    b[off] as int + 0x100 * (b[off + 1] as int) + 0x1_0000 * (b[off + 2] as int) + 0x100_0000 * (b[off + 3] as int)
  }

  function WordByte(w: word, k: nat): byte
    requires k < 4
  {
    if k == 0 then w % 0x100
    else if k == 1 then w / 0x100 % 0x100
    else if k == 2 then w / 0x100 / 0x100 % 0x100
    else w / 0x100 / 0x100 / 0x100 % 0x100
  }

  lemma WordBytes(w: word)
    ensures w == WordByte(w, 0) + 0x100 * WordByte(w, 1) + 0x1_0000 * WordByte(w, 2) + 0x100_0000 * WordByte(w, 3)
  {
    var q := w / 0x100;
    var r := q / 0x100;
    var t := r / 0x100;
    assert w == 0x100 * q + w % 0x100 && q == 0x100 * r + q % 0x100 && r == 0x100 * t + r % 0x100;
    assert 0 <= t < 0x100;
  }

  /** The 128 words of an indirect table. */
  function Table(s: Sector): (t: seq<word>)
    ensures |t| == 128
  {
    seq(128, k requires 0 <= k < 128 => WordAt(s, 4 * k))
  }

  function TableBytes(t: seq<word>): Sector
    requires |t| == 128
  {
    seq(512, i requires 0 <= i < 512 => WordByte(t[i / 4], i % 4))
  }

  /** A table written to a sector is the table read back. */
  lemma TableRoundTrip(t: seq<word>)
    requires |t| == 128
    ensures Table(TableBytes(t)) == t
  {
    var s := TableBytes(t);
    forall k | 0 <= k < 128 ensures Table(s)[k] == t[k] {
      WordBytes(t[k]);
      assert s[4 * k] == WordByte(t[k], 0) && s[4 * k + 1] == WordByte(t[k], 1);
      assert s[4 * k + 2] == WordByte(t[k], 2) && s[4 * k + 3] == WordByte(t[k], 3);
    }
  }

  /** 256 to the power k. */
  function Weight(k: nat): (w: nat)
    ensures w > 0
  {
    if k == 0 then 1 else 0x100 * Weight(k - 1)
  }

  /** The words of a table follow each other on disk, each with its least byte first. */
  lemma TableLayout(t: seq<word>, k: nat, j: nat)
    requires |t| == 128 && k < 128 && j < 4
    ensures TableBytes(t)[4 * k + j] == t[k] / Weight(j) % 0x100
  {
    ByteWeight(t[k], j);
  }

  lemma ByteWeight(w: word, j: nat)
    requires j < 4
    ensures WordByte(w, j) == w / Weight(j) % 0x100
  {
    var a, b := w / 0x100, w / 0x100 / 0x100;
    assert b == w / 0x1_0000 && b / 0x100 == w / 0x100_0000;
    assert Weight(1) == 0x100 && Weight(2) == 0x100 * Weight(1) && Weight(3) == 0x100 * Weight(2);
  }

  // ---------------------------------------------------------------- what an inode owns

  function Read(disk: map<word, Sector>, a: word): Sector {
    if a in disk then disk[a] else ZeroSector()
  }

  /** The array all_block that every reader of an inode builds: twelve direct addresses, then the table. */
  function AllBlocks(nd: Inode, disk: map<word, Sector>): (a: seq<word>)
    ensures |a| == MAX_BLOCKS
  {
    nd.sectors[..12] + (if nd.sectors[12] == 0 then NoTable() else Table(Read(disk, nd.sectors[12])))
  }

  /** All addresses an inode refers to: its blocks, then its indirect table. Zero means none. */
  function Refs(nd: Inode, disk: map<word, Sector>): (a: seq<word>)
    ensures |a| == MAX_BLOCKS + 1
  {
    AllBlocks(nd, disk) + [nd.sectors[12]]
  }

  function Owned(nd: Inode, disk: map<word, Sector>): set<word> {
    set a | a in Refs(nd, disk) && a != 0
  }

  ghost predicate NoSharing(nd: Inode, disk: map<word, Sector>) {
    NoRepeats(Refs(nd, disk))
  }

  ghost predicate NoRepeats(r: seq<word>) {
    forall i, j :: 0 <= i < j < |r| && r[i] != 0 ==> r[i] != r[j]
  }

  // ---------------------------------------------------------------- the bitmap

  predicate InRange(v: Vol, a: word) {
    v.start <= a < v.start + |v.bits|
  }

  predicate IsSet(v: Vol, a: word) {
    InRange(v, a) && v.bits[a - v.start]
  }

  /** From v to w no block was taken while one below it was free. */
  ghost predicate FirstFit(v: Vol, w: Vol) {
    forall a, b :: InRange(v, a) && !IsSet(v, a) && a < b && !IsSet(v, b) && IsSet(w, b) ==> IsSet(w, a)
  }

  function FreeCount(bits: seq<bool>): nat {
    if bits == [] then 0 else (if bits[0] then 0 else 1) + FreeCount(bits[1..])
  }

  lemma {:induction false} FreeCountSet(bits: seq<bool>, i: nat)
    requires i < |bits| && !bits[i]
    ensures FreeCount(bits) == FreeCount(bits[i := true]) + 1
  {
    if i > 0 {
      FreeCountSet(bits[1..], i - 1);
      assert bits[i := true][1..] == bits[1..][i - 1 := true];
    } else {
      assert bits[i := true][1..] == bits[1..];
    }
  }

  lemma {:induction false} FreeCountZero(bits: seq<bool>)
    ensures FreeCount(bits) == 0 <==> forall i :: 0 <= i < |bits| ==> bits[i]
  {
    if bits != [] {
      FreeCountZero(bits[1..]);
      if forall i :: 0 <= i < |bits| ==> bits[i] {
        assert forall i :: 0 <= i < |bits[1..]| ==> bits[1..][i] == bits[i + 1];
      } else {
        var i :| 0 <= i < |bits| && !bits[i];
        if i > 0 { assert !bits[1..][i - 1]; }
      }
    }
  }

  // ---------------------------------------------------------------- the invariant

  ghost predicate Owns(v: Vol, ino: nat, a: word) {
    ino in v.inodes && a in Owned(v.inodes[ino], v.disk)
  }

  /** No block has two owners, and the set bits are exactly the owned and the reserved blocks. */
  ghost predicate Inv(v: Vol) {
    && 0 < v.start && v.start + |v.bits| <= 0x1_0000_0000
    && (forall ino :: ino in v.inodes ==> NoSharing(v.inodes[ino], v.disk))
    && (forall i, j, a :: Owns(v, i, a) && Owns(v, j, a) ==> i == j)
    && (forall i, a :: Owns(v, i, a) ==> IsSet(v, a) && a !in v.reserved)
    && (forall a :: a in v.reserved ==> IsSet(v, a))
    && (forall a :: IsSet(v, a) && a !in v.reserved ==> exists i :: Owns(v, i, a))
  }

  ghost predicate SameOn(d: map<word, Sector>, e: map<word, Sector>, s: set<word>) {
    forall a :: a in s ==> Read(e, a) == Read(d, a)
  }

  /** What a change to one inode may do to the rest of the volume: nothing. */
  ghost predicate OthersKept(v: Vol, w: Vol, ino: nat) {
    && w.start == v.start && |w.bits| == |v.bits| && w.reserved == v.reserved
    && (forall j :: j != ino ==> (j in w.inodes <==> j in v.inodes))
    && (forall j :: j in v.inodes && j != ino ==>
          j in w.inodes && w.inodes[j] == v.inodes[j] && SameOn(v.disk, w.disk, Owned(v.inodes[j], v.disk)))
  }

  /** A disk that agrees on what an inode owns gives the inode the same addresses. */
  lemma SameRefs(nd: Inode, d: map<word, Sector>, e: map<word, Sector>)
    requires SameOn(d, e, Owned(nd, d))
    ensures Refs(nd, e) == Refs(nd, d)
  {
    hide Table, Read;
    if nd.sectors[12] != 0 {
      assert Refs(nd, d)[140] == nd.sectors[12];
      assert nd.sectors[12] in Owned(nd, d);
    }
  }

  lemma OthersOwn(v: Vol, w: Vol, ino: nat)
    requires OthersKept(v, w, ino)
    ensures forall j, a :: j != ino ==> (Owns(w, j, a) <==> Owns(v, j, a))
    ensures forall j :: j in w.inodes && j != ino ==> Refs(w.inodes[j], w.disk) == Refs(v.inodes[j], v.disk)
  {
    forall j | j in w.inodes && j != ino
      ensures Refs(w.inodes[j], w.disk) == Refs(v.inodes[j], v.disk)
    {
      SameRefs(v.inodes[j], v.disk, w.disk);
    }
  }

  /**
   The conservation law behind every operation: if one inode gains fresh blocks and gives
   up some of its own, and the bitmap records exactly that, the invariant is kept.
   */
  lemma Rebalance(v: Vol, w: Vol, ino: nat, gained: set<word>, lost: set<word>)
    requires Inv(v) && OthersKept(v, w, ino)
    requires forall a :: a in lost ==> Owns(v, ino, a)
    requires forall a :: a in gained ==> InRange(v, a) && !IsSet(v, a)
    requires forall a :: Owns(w, ino, a) <==> (Owns(v, ino, a) && a !in lost) || a in gained
    requires ino in w.inodes ==> NoSharing(w.inodes[ino], w.disk)
    requires forall a :: IsSet(w, a) <==> (IsSet(v, a) && a !in lost) || a in gained
    ensures Inv(w)
  {
    OthersOwn(v, w, ino);
    forall i, j, a | Owns(w, i, a) && Owns(w, j, a) ensures i == j {
      assert i != ino ==> Owns(v, i, a);
      assert j != ino ==> Owns(v, j, a);
    }
    forall a | IsSet(w, a) && a !in w.reserved ensures exists i :: Owns(w, i, a) {
      if a in gained {
        assert Owns(w, ino, a);
      } else {
        var i :| Owns(v, i, a);
        assert Owns(w, i, a);
      }
    }
  }

  // ---------------------------------------------------------------- the partition object

  class Partition {
    const start: nat
    const reserved: set<word>
    var bits: seq<bool>
    var disk: map<word, Sector>
    var inodes: map<nat, Inode>

    function V(): Vol
      reads this
    {
      Vol(start, bits, disk, inodes, reserved)
    }

    constructor (v: Vol)
      ensures V() == v
    {
      start, bits, disk, inodes, reserved := v.start, v.bits, v.disk, v.inodes, v.reserved;
    }

    /** Takes the first free block, zeroes it on disk and returns its address; None when the bitmap is full. */
    method BlockBitmapAlloc() returns (lba: word, ok: bool)
      requires start + |bits| <= 0x1_0000_0000
      modifies this`bits, this`disk
      ensures !ok ==> bits == old(bits) && disk == old(disk) && FreeCount(bits) == 0
      ensures ok ==> start <= lba < start + old(|bits|) && !old(bits)[lba - start]
                     && bits == old(bits)[lba - start := true]
                     && (forall k :: 0 <= k < lba - start ==> old(bits)[k])
                     && disk == old(disk)[lba := ZeroSector()]
                     && FreeCount(bits) + 1 == old(FreeCount(bits))
    {
      lba, ok := 0, false;
      var i := 0;
      while i < |bits|
        invariant 0 <= i <= |bits| && !ok
        invariant forall k :: 0 <= k < i ==> bits[k]
        invariant bits == old(bits) && disk == old(disk)
      {
        if !bits[i] {
          FreeCountSet(bits, i);
          bits := bits[i := true];
          disk := disk[start + i := ZeroSector()];
          return start + i, true;
        }
        i := i + 1;
      }
      FreeCountZero(bits);
    }

    /** Clears the bit of a block; the sector keeps its bytes. */
    method BlockBitmapFree(lba: word)
      requires InRange(V(), lba)
      modifies this`bits
      ensures bits == old(bits)[lba - start := false]
    {
      bits := bits[lba - start := false];
    }
  }
}

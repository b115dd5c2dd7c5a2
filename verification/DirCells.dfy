/**
 Directory sectors as arrays of 24-byte entries, and a directory's twelve direct blocks as one
 flat array of 252 cells. The cells are read as a finite map from names to (inode, type).
 */
module DirCells {
  import opened Volume

  const PER_SECTOR: nat := 21
  const CELLS: nat := 252
  const FT_UNKNOWN: word := 0
  const FT_REGULAR: word := 1
  const FT_DIRECTORY: word := 2

  /** struct _dir_entry: filename, i_no, f_type. */
  datatype Slot = Slot(name: seq<byte>, ino: word, kind: word)

  function Free(): Slot { Slot([], 0, FT_UNKNOWN) }

  function Dot(): seq<byte> { [46] }

  function DotDot(): seq<byte> { [46, 46] }

  predicate Live(c: Slot) { c.kind != FT_UNKNOWN }

  // ---------------------------------------------------------------- entries as bytes

  /** The bytes before the first NUL. */
  function CStr(b: seq<byte>): seq<byte> {
    if b == [] || b[0] == 0 then [] else [b[0]] + CStr(b[1..])
  }

  predicate Storable(e: Slot) {
    |e.name| < 16 && 0 !in e.name
  }

  function WordBytes4(w: word): (b: seq<byte>)
    ensures |b| == 4
  {
    [WordByte(w, 0), WordByte(w, 1), WordByte(w, 2), WordByte(w, 3)]
  }

  function Encode(e: Slot): (b: seq<byte>)
    requires Storable(e)
    ensures |b| == 24
  {
    e.name + seq(16 - |e.name|, _ => 0) + WordBytes4(e.ino) + WordBytes4(e.kind)
  }

  function Decode(b: seq<byte>): Slot
    requires |b| == 24
  {
    Slot(CStr(b[..16]), WordAt(b, 16), WordAt(b, 20))
  }

  function SlotAt(s: Sector, j: nat): Slot
    requires j < PER_SECTOR
  {
    Decode(s[24 * j..24 * j + 24])
  }

  /** memcpy of an entry into its place in a sector buffer. */
  function PutSlot(s: Sector, j: nat, e: Slot): Sector
    requires j < PER_SECTOR && Storable(e)
  {
    s[..24 * j] + Encode(e) + s[24 * j + 24..]
  }

  lemma {:induction false} CStrPadded(name: seq<byte>, n: nat, tail: seq<byte>)
    requires 0 !in name && n > 0 && |tail| == n && tail[0] == 0
    ensures CStr(name + tail) == name
  {
    if name != [] {
      assert (name + tail)[0] == name[0] && (name + tail)[1..] == name[1..] + tail;
      CStrPadded(name[1..], n, tail);
    }
  }

  lemma WordFromBytes(w: word)
    ensures WordAt(WordBytes4(w), 0) == w
  {
    WordBytes(w);
  }

  /** An entry stored is the entry read back. */
  lemma EncodeDecode(e: Slot)
    requires Storable(e)
    ensures Decode(Encode(e)) == e
  {
    hide WordByte, CStr;
    var b := Encode(e);
    var pad: seq<byte> := seq(16 - |e.name|, _ => 0);
    assert b[..16] == e.name + pad;
    CStrPadded(e.name, |pad|, pad);
    WordFromBytes(e.ino);
    WordFromBytes(e.kind);
    assert b[16..20] == WordBytes4(e.ino) && b[20..24] == WordBytes4(e.kind);
    assert WordAt(b, 16) == WordAt(b[16..20], 0);
    assert WordAt(b, 20) == WordAt(b[20..24], 0);
  }

  /** The 24 bytes of an entry: the name and zeros to the 16th, then the inode and the type, least byte first. */
  lemma EntryLayout(e: Slot, k: nat)
    requires Storable(e) && k < 24
    ensures Encode(e)[k] ==
      if k < |e.name| then e.name[k]
      else if k < 16 then 0
      else if k < 20 then e.ino / Weight(k - 16) % 0x100
      else e.kind / Weight(k - 20) % 0x100
  {
    hide WordByte;
    if 16 <= k < 20 { ByteWeight(e.ino, k - 16); }
    if 20 <= k { ByteWeight(e.kind, k - 20); }
  }

  /** Storing one entry of a sector changes that entry and no other. */
  lemma PutGet(s: Sector, j: nat, e: Slot, k: nat)
    requires j < PER_SECTOR && k < PER_SECTOR && Storable(e)
    ensures SlotAt(PutSlot(s, j, e), k) == if k == j then e else SlotAt(s, k)
  {
    hide Encode, Decode;
    var t := PutSlot(s, j, e);
    if k == j {
      assert t[24 * j..24 * j + 24] == Encode(e);
      EncodeDecode(e);
    } else {
      assert t[24 * k..24 * k + 24] == s[24 * k..24 * k + 24];
    }
  }

  lemma ZeroSlots(k: nat)
    requires k < PER_SECTOR
    ensures SlotAt(ZeroSector(), k) == Free()
  {
    var b := ZeroSector()[24 * k..24 * k + 24];
    assert forall i :: 0 <= i < 24 ==> b[i] == 0;
    assert b[..16][0] == 0 && WordAt(b, 16) == 0 && WordAt(b, 20) == 0;
  }

  // ---------------------------------------------------------------- the cells of a directory

  function Cells(nd: Inode, disk: map<word, Sector>): (c: seq<Slot>)
    ensures |c| == CELLS
  {
    seq(CELLS, k requires 0 <= k < CELLS =>
      if nd.sectors[k / 21] == 0 then Free() else SlotAt(Read(disk, nd.sectors[k / 21]), k % 21))
  }

  lemma CellOf(nd: Inode, disk: map<word, Sector>, b: nat, j: nat)
    requires b < 12 && j < PER_SECTOR
    ensures 21 * b + j < CELLS
    ensures Cells(nd, disk)[21 * b + j] == if nd.sectors[b] == 0 then Free() else SlotAt(Read(disk, nd.sectors[b]), j)
  {
    assert (21 * b + j) / 21 == b && (21 * b + j) % 21 == j;
  }

  function LiveCount(c: seq<Slot>): nat {
    if c == [] then 0 else (if Live(c[0]) then 1 else 0) + LiveCount(c[1..])
  }

  /** The live entries in slot order. */
  function LiveSeq(c: seq<Slot>): (s: seq<Slot>)
    ensures |s| == LiveCount(c)
  {
    if c == [] then [] else (if Live(c[0]) then [c[0]] else []) + LiveSeq(c[1..])
  }

  /** The directory as a finite map. */
  function Entries(c: seq<Slot>): map<seq<byte>, (word, word)> {
    if c == [] then map[]
    else if Live(c[0]) then Entries(c[1..])[c[0].name := (c[0].ino, c[0].kind)]
    else Entries(c[1..])
  }

  ghost predicate DistinctNames(c: seq<Slot>) {
    forall i, j :: 0 <= i < j < |c| && Live(c[i]) && Live(c[j]) ==> c[i].name != c[j].name
  }

  ghost predicate Holds(c: seq<Slot>, name: seq<byte>) {
    exists k :: 0 <= k < |c| && Live(c[k]) && c[k].name == name
  }

  lemma {:induction false} EntriesKeys(c: seq<Slot>, name: seq<byte>)
    ensures name in Entries(c) <==> Holds(c, name)
  {
    if c != [] {
      EntriesKeys(c[1..], name);
      assert forall k :: 0 <= k < |c| - 1 ==> c[1..][k] == c[k + 1];
      if Holds(c, name) {
        var k :| 0 <= k < |c| && Live(c[k]) && c[k].name == name;
        if k > 0 { assert c[1..][k - 1].name == name; }
      }
      if Holds(c[1..], name) {
        var k :| 0 <= k < |c| - 1 && Live(c[1..][k]) && c[1..][k].name == name;
        assert c[k + 1].name == name;
      }
    }
  }

  lemma {:induction false} EntryAt(c: seq<Slot>, k: nat)
    requires k < |c| && Live(c[k]) && DistinctNames(c)
    ensures c[k].name in Entries(c) && Entries(c)[c[k].name] == (c[k].ino, c[k].kind)
  {
    if k > 0 {
      assert c[1..][k - 1] == c[k];
      DistinctTail(c);
      EntryAt(c[1..], k - 1);
    }
  }

  lemma DistinctTail(c: seq<Slot>)
    requires c != [] && DistinctNames(c)
    ensures DistinctNames(c[1..])
  {
    forall i, j | 0 <= i < j < |c| - 1 && Live(c[1..][i]) && Live(c[1..][j]) ensures c[1..][i].name != c[1..][j].name {
      assert c[1..][i] == c[i + 1] && c[1..][j] == c[j + 1];
    }
  }

  /** Filling a free cell with a fresh name adds one binding and one live entry. */
  lemma {:induction false} FillCell(c: seq<Slot>, k: nat, e: Slot)
    requires k < |c| && !Live(c[k]) && Live(e) && !Holds(c, e.name)
    ensures Entries(c[k := e]) == Entries(c)[e.name := (e.ino, e.kind)]
    ensures LiveCount(c[k := e]) == LiveCount(c) + 1
  {
    if k == 0 {
      assert c[0 := e][1..] == c[1..];
    } else {
      assert c[k := e][1..] == c[1..][k - 1 := e];
      assert !Holds(c[1..], e.name) by {
        assert forall i :: 0 <= i < |c| - 1 ==> c[1..][i] == c[i + 1];
      }
      FillCell(c[1..], k - 1, e);
    }
  }

  /** Clearing a live cell removes exactly its binding. */
  lemma {:induction false} ClearCell(c: seq<Slot>, k: nat)
    requires k < |c| && Live(c[k]) && DistinctNames(c)
    ensures Entries(c[k := Free()]) == Entries(c) - {c[k].name}
    ensures LiveCount(c[k := Free()]) + 1 == LiveCount(c)
  {
    DistinctTail(c);
    if k == 0 {
      assert c[0 := Free()][1..] == c[1..];
      EntriesKeys(c[1..], c[0].name);
      assert forall i :: 0 <= i < |c| - 1 ==> c[1..][i] == c[i + 1];
    } else {
      assert c[k := Free()][1..] == c[1..][k - 1 := Free()];
      assert c[1..][k - 1] == c[k];
      ClearCell(c[1..], k - 1);
    }
  }

  lemma {:induction false} LiveBounds(c: seq<Slot>)
    ensures LiveCount(c) <= |c|
    ensures LiveCount(c) == |c| ==> forall k :: 0 <= k < |c| ==> Live(c[k])
    ensures LiveCount(c) == 0 ==> forall k :: 0 <= k < |c| ==> !Live(c[k])
    ensures (forall k :: 0 <= k < |c| ==> !Live(c[k])) ==> LiveCount(c) == 0
    ensures (forall k :: 0 <= k < |c| ==> Live(c[k])) ==> LiveCount(c) == |c|
  {
    if c != [] {
      assert forall k :: 0 <= k < |c| - 1 ==> c[1..][k] == c[k + 1];
      LiveBounds(c[1..]);
      assert forall k :: 0 < k < |c| ==> c[k] == c[1..][k - 1];
    }
  }

  lemma {:induction false} LiveSplit(a: seq<Slot>, b: seq<Slot>)
    ensures LiveCount(a + b) == LiveCount(a) + LiveCount(b)
    ensures LiveSeq(a + b) == LiveSeq(a) + LiveSeq(b)
  {
    if a == [] {
      assert a + b == b;
    } else {
      assert (a + b)[0] == a[0] && (a + b)[1..] == a[1..] + b;
      LiveSplit(a[1..], b);
    }
  }

  // ---------------------------------------------------------------- well-formed directories

  predicate NameOk(name: seq<byte>) {
    0 < |name| < 16 && 0 !in name && 47 !in name
  }

  ghost predicate CellsOk(c: seq<Slot>) {
    && |c| == CELLS
    && (forall k :: 0 <= k < CELLS && !Live(c[k]) ==> c[k] == Free())
    && (forall k :: 0 <= k < CELLS && Live(c[k]) ==> NameOk(c[k].name))
    && DistinctNames(c)
    && c[0].name == Dot() && c[0].kind == FT_DIRECTORY
    && c[1].name == DotDot() && c[1].kind == FT_DIRECTORY
    && DistinctInodes(c)
  }

  ghost predicate DistinctInodes(c: seq<Slot>) {
    forall i, j :: 2 <= i < j < |c| && Live(c[i]) && Live(c[j]) ==> c[i].ino != c[j].ino
  }

  ghost predicate BlockUsed(c: seq<Slot>, b: nat)
    requires |c| == CELLS && b < 12
  {
    exists k :: 21 * b <= k < 21 * b + 21 && Live(c[k])
  }

  /** Size counts the live entries, and every block but the first earns its place. */
  ghost predicate DirOk(nd: Inode, disk: map<word, Sector>) {
    var c := Cells(nd, disk);
    && nd.sectors[0] != 0 && nd.sectors[12] == 0
    && CellsOk(c)
    && nd.size == 24 * LiveCount(c)
    && forall b :: 1 <= b < 12 && nd.sectors[b] != 0 ==> BlockUsed(c, b)
  }
}

/**
 Bitmaps. The first half is the contract that every allocator relies on; the second is the code of the
 bitmap itself, byte by byte, and exactly when its search meets that contract.
 */
module Bitmap {

  // ---------------------------------------------------------------- the contract of a search

  /** Bits [i, i + cnt) exist and are all clear. */
  predicate ClearRun(bits: seq<bool>, i: int, cnt: nat) {
    0 <= i && i + cnt <= |bits| && forall k :: i <= k < i + cnt ==> !bits[k]
  }

  /** The declared contract: the start of cnt consecutive clear bits, or -1 if there are none. */
  ghost predicate SearchOk(bits: seq<bool>, cnt: nat, r: int) {
    if r == -1 then forall i :: !ClearRun(bits, i, cnt) else ClearRun(bits, r, cnt)
  }

  /** A search that meets the contract: the least clear run. */
  method Search(bits: seq<bool>, cnt: nat) returns (r: int)
    ensures SearchOk(bits, cnt, r) && -1 <= r
    ensures forall j :: j < r ==> !ClearRun(bits, j, cnt)
  {
    var i := 0;
    while i + cnt <= |bits|
      invariant 0 <= i
      invariant forall j :: j < i ==> !ClearRun(bits, j, cnt)
    {
      var k := i;
      while k < i + cnt && !bits[k]
        invariant i <= k <= i + cnt
        invariant forall m :: i <= m < k ==> !bits[m]
      {
        k := k + 1;
      }
      if k == i + cnt { return i; }
      i := i + 1;
    }
    return -1;
  }

  function Marked(bits: seq<bool>, off: nat, value: bool, cnt: nat): (r: seq<bool>)
    requires off + cnt <= |bits|
    ensures |r| == |bits| && forall k :: 0 <= k < |bits| ==> r[k] == if off <= k < off + cnt then value else bits[k]
  {
    bits[..off] + seq(cnt, _ => value) + bits[off + cnt..]
  }

  /** Taking a clear run and giving it back is no change. */
  lemma MarkedBack(bits: seq<bool>, off: nat, cnt: nat)
    requires ClearRun(bits, off, cnt)
    ensures Marked(Marked(bits, off, true, cnt), off, false, cnt) == bits
  {
  }

  // ---------------------------------------------------------------- bytes

  function Mask(k: nat): bv8
    requires k < 8
  {
    if k == 0 then 1 else if k == 1 then 2 else if k == 2 then 4 else if k == 3 then 8
    else if k == 4 then 16 else if k == 5 then 32 else if k == 6 then 64 else 128
  }

  /** A byte shifted left inside eight bits. */
  function Shifted(v: bv8, k: nat): bv8
    requires k < 8
  {
    if k == 0 then v else if k == 1 then v << 1 else if k == 2 then v << 2 else if k == 3 then v << 3
    else if k == 4 then v << 4 else if k == 5 then v << 5 else if k == 6 then v << 6 else v << 7
  }

  predicate BitOf(b: bv8, k: nat)
    requires k < 8
  {
    b & Mask(k) != 0
  }

  lemma OneShifted(k: nat)
    requires k < 8
    ensures Shifted(1, k) == Mask(k)
  {
  }

  lemma SetBit(b: bv8, k: nat, j: nat)
    requires k < 8 && j < 8
    ensures BitOf(b | Mask(k), j) <==> j == k || BitOf(b, j)
  {
  }

  lemma ClearBit(b: bv8, k: nat, j: nat)
    requires k < 8 && j < 8
    ensures BitOf(b & !Mask(k), j) <==> j != k && BitOf(b, j)
  {
  }

  lemma SameByte(a: bv8, b: bv8)
    requires forall k :: 0 <= k < 8 ==> BitOf(a, k) == BitOf(b, k)
    ensures a == b
  {
    assert BitOf(a, 0) == BitOf(b, 0) && BitOf(a, 1) == BitOf(b, 1) && BitOf(a, 2) == BitOf(b, 2)
      && BitOf(a, 3) == BitOf(b, 3);
    assert BitOf(a, 4) == BitOf(b, 4) && BitOf(a, 5) == BitOf(b, 5) && BitOf(a, 6) == BitOf(b, 6)
      && BitOf(a, 7) == BitOf(b, 7);
  }

  lemma FullByte(b: bv8, k: nat)
    requires b == 0xFF && k < 8
    ensures BitOf(b, k)
  {
  }

  /** The bits of a byte string, lowest bit of a byte first. */
  function Bits(s: seq<bv8>): (r: seq<bool>)
    ensures |r| == 8 * |s|
  {
    seq(8 * |s|, i requires 0 <= i < 8 * |s| => BitOf(s[i / 8], i % 8))
  }

  lemma BitsAt(s: seq<bv8>, b: nat, k: nat)
    requires b < |s| && k < 8
    ensures Bits(s)[8 * b + k] == BitOf(s[b], k)
  {
    hide BitOf;
  }

  lemma SameBytes(s: seq<bv8>, t: seq<bv8>)
    requires Bits(s) == Bits(t)
    ensures s == t
  {
    assert |Bits(s)| == |Bits(t)|;
    forall i | 0 <= i < |s| ensures s[i] == t[i] {
      forall k | 0 <= k < 8 ensures BitOf(s[i], k) == BitOf(t[i], k) {
        assert Bits(s)[8 * i + k] == Bits(t)[8 * i + k];
      }
      SameByte(s[i], t[i]);
    }
  }

  // ---------------------------------------------------------------- what the search really returns

  /** A run the search can see: it must end before the last bit, and be short enough for an 8-bit counter. */
  predicate Seen(bits: seq<bool>, i: int, cnt: nat) {
    ClearRun(bits, i, cnt) && i + cnt < |bits| && cnt < 256
  }

  /** The least run the search can see, in eight bits; 255 if there is none. */
  ghost predicate Found(bits: seq<bool>, cnt: nat, r: int) {
    || ((forall i :: !Seen(bits, i, cnt)) && r == 255)
    || (exists i :: Seen(bits, i, cnt) && (forall j :: j < i ==> !Seen(bits, j, cnt)) && r == i % 256)
  }

  function WithBit(b: bv8, k: nat, value: bool): bv8
    requires k < 8
  {
    if value then b | Mask(k) else b & !Mask(k)
  }

  lemma WithBitAt(b: bv8, k: nat, value: bool, j: nat)
    requires k < 8 && j < 8
    ensures BitOf(WithBit(b, k, value), j) <==> if j == k then value else BitOf(b, j)
  {
    SetBit(b, k, j);
    ClearBit(b, k, j);
  }

  lemma BitAfter(s: seq<bv8>, t: seq<bv8>, b: nat, k: nat, value: bool, c: nat, j: nat)
    requires b < |s| && k < 8 && c < |s| && j < 8 && t == s[b := WithBit(s[b], k, value)]
    ensures BitOf(t[c], j) <==> if c == b && j == k then value else BitOf(s[c], j)
  {
    hide BitOf, Mask, WithBit;
    WithBitAt(s[b], k, value, j);
  }

  /** One bit of one byte changed is one bit of the bitmap changed. */
  lemma ByteSet(s: seq<bv8>, t: seq<bv8>, off: nat, value: bool)
    requires off < 8 * |s|
    requires t == s[off / 8 := WithBit(s[off / 8], off % 8, value)]
    ensures Bits(t) == Marked(Bits(s), off, value, 1)
  {
    hide BitOf, Mask, WithBit, Marked;
    forall i | 0 <= i < 8 * |s| ensures Bits(t)[i] == if i == off then value else Bits(s)[i] {
      BitAfter(s, t, off / 8, off % 8, value, i / 8, i % 8);
      BytePlace(i, off);
    }
  }

  lemma BytePlace(i: nat, off: nat)
    ensures i / 8 == off / 8 && i % 8 == off % 8 <==> i == off
  {
  }

  /** What bitmap_set makes of a byte. */
  function NextByte(b: bv8, k: nat, value: bv8): bv8
    requires k < 8
  {
    if value == 0 then b & !Mask(k) else b | Shifted(value, k)
  }

  lemma NextByteIs(b: bv8, k: nat, value: bv8)
    requires k < 8
    ensures value > 1 ==> NextByte(b, k, value) == b | Shifted(value, k)
    ensures value <= 1 ==> NextByte(b, k, value) == WithBit(b, k, value == 1)
  {
    SetForms(b, k);
    if value == 1 { assert NextByte(b, k, 1) == b | Shifted(1, k); }
  }

  lemma SetForms(b: bv8, k: nat)
    requires k < 8
    ensures b & !Mask(k) == WithBit(b, k, false) && b | Shifted(1, k) == WithBit(b, k, true)
  {
    OneShifted(k);
  }

  /** Where the search stands at a position: `run` clear bits end here, and no run it could see ended before. */
  ghost predicate Scanned(v: seq<bool>, at: nat, run: nat, cnt: nat) {
    && run <= at <= |v| && (cnt < 256 ==> run <= cnt)
    && (forall k :: at - run <= k < at ==> !v[k])
    && (run < at ==> v[at - run - 1])
    && (forall j :: j + cnt < at ==> !Seen(v, j, cnt))
  }

  predicate Full(v: seq<bool>, n: nat) {
    n <= |v| && forall i :: 0 <= i < n ==> v[i]
  }

  lemma ScanStart(v: seq<bool>, at: nat, cnt: nat)
    requires cnt > 0 && Full(v, at)
    ensures Scanned(v, at, 0, cnt)
  {
    forall j | j + cnt < at ensures !Seen(v, j, cnt) { assert 0 <= j ==> v[j]; }
  }

  lemma ScanNext(v: seq<bool>, at: nat, run: nat, cnt: nat)
    requires cnt > 0 && Scanned(v, at, run, cnt) && at < |v| && (cnt < 256 ==> run != cnt)
    ensures Scanned(v, at + 1, if v[at] then 0 else run + 1, cnt)
  {
    hide ClearRun;
    if cnt < 256 { NoRunYet(v, at, run, cnt); }
    assert forall j :: j + cnt == at ==> !Seen(v, j, cnt);
  }

  lemma ScanHit(v: seq<bool>, at: nat, run: nat, cnt: nat)
    requires Scanned(v, at, run, cnt) && at < |v| && run % 256 == cnt
    ensures 0 <= at - cnt && Found(v, cnt, (at - cnt) % 256)
  {
    assert Seen(v, at - cnt, cnt);
    assert forall j :: j < at - cnt ==> !Seen(v, j, cnt);
  }

  lemma ScanEnd(v: seq<bool>, run: nat, cnt: nat)
    requires Scanned(v, |v|, run, cnt)
    ensures Found(v, cnt, 255)
  {
    assert forall j :: !Seen(v, j, cnt);
  }

  class BitMap {
    const bits: array<bv8>

    constructor (s: seq<bv8>)
      ensures fresh(bits) && bits[..] == s
    {
      var a := new bv8[|s|](i requires 0 <= i < |s| => s[i]);
      bits := a;
      new;
      assert forall i :: 0 <= i < |s| ==> bits[i] == s[i];
    }

    function View(): (r: seq<bool>)
      reads this, bits
    {
      Bits(bits[..])
    }

    /** The leading bytes that are full. */
    method SkipFull() returns (byteIdx: nat)
      ensures byteIdx <= bits.Length && Full(View(), 8 * byteIdx)
    {
      byteIdx := 0;
      while byteIdx < bits.Length && bits[byteIdx] == 0xFF
        invariant 0 <= byteIdx <= bits.Length
        invariant Full(View(), 8 * byteIdx)
      {
        forall i | 8 * byteIdx <= i < 8 * byteIdx + 8 ensures View()[i] { FullByte(bits[byteIdx], i % 8); }
        byteIdx := byteIdx + 1;
      }
    }

    /** bitMap_scan for a positive count, with its 8-bit counter and 8-bit result. */
    method Scan(cnt: nat) returns (r: int)
      requires cnt > 0
      ensures Found(View(), cnt, r) && 0 <= r < 256
    {
      hide BitOf, Bits, Found, Scanned, Full, Seen, Marked;
      ghost var v := View();
      var byteIdx := SkipFull();
      r := 255;
      var leisure, off := 0, 0;
      ghost var run := 0;
      ScanStart(v, 8 * byteIdx, cnt);
      while byteIdx < bits.Length
        invariant 0 <= byteIdx <= bits.Length && 0 <= off < 8 && (byteIdx == bits.Length ==> off == 0)
        invariant leisure == run % 256 && 0 <= run && r == 255
        invariant Scanned(v, 8 * byteIdx + off, run, cnt)
        decreases bits.Length - byteIdx, 8 - off
      {
        ghost var at := 8 * byteIdx + off;
        if leisure == cnt {
          ScanHit(v, at, run, cnt);
          r := (8 * byteIdx + off - cnt) % 256;
          return;
        }
        ScanNext(v, at, run, cnt);
        BitsAt(bits[..], byteIdx, off);
        if BitOf(bits[byteIdx], off) {
          leisure, run := 0, 0;
        } else {
          leisure, run := (leisure + 1) % 256, run + 1;
        }
        off := off + 1;
        if off == 8 {
          off := 0;
          byteIdx := byteIdx + 1;
        }
      }
      ScanEnd(v, run, cnt);
    }

    /** bitmap_set; any value but 0 is shifted in whole. */
    method Set(off: nat, value: bv8)
      requires off < 8 * bits.Length
      modifies bits
      ensures forall i :: 0 <= i < bits.Length && i != off / 8 ==> bits[i] == old(bits[i])
      ensures value > 1 ==> bits[off / 8] == old(bits[off / 8]) | Shifted(value, off % 8)
      ensures value <= 1 ==> View() == Marked(old(View()), off, value == 1, 1)
    {
      hide BitOf, Bits, Mask, Marked, Shifted, WithBit, NextByte;
      ghost var s := bits[..];
      var b, k := off / 8, off % 8;
      NextByteIs(bits[b], k, value);
      var next := NextByte(bits[b], k, value);
      bits[b] := next;
      assert bits[..] == s[b := next];
      if value <= 1 { ByteSet(s, bits[..], off, value == 1); }
    }

    method SetEx(off: nat, value: bv8, cnt: nat)
      requires value <= 1 && off + cnt <= 8 * bits.Length
      modifies bits
      ensures View() == Marked(old(View()), off, value == 1, cnt)
    {
      ghost var v := View();
      var i := 0;
      while i < cnt
        invariant 0 <= i <= cnt && View() == Marked(v, off, value == 1, i)
      {
        Set(off + i, value);
        i := i + 1;
      }
    }

    /** Taking what the search found, when it could see a run, and giving it back restores every byte. */
    method TakeAndRelease(cnt: nat) returns (r: int)
      requires 0 < cnt && 8 * bits.Length <= 248 && exists i :: Seen(View(), i, cnt)
      modifies bits
      ensures ClearRun(old(View()), r, cnt)
      ensures bits[..] == old(bits[..])
    {
      ghost var v, s := View(), bits[..];
      r := Scan(cnt);
      SmallSearch(v, cnt, r);
      SetEx(r, 1, cnt);
      SetEx(r, 0, cnt);
      MarkedBack(v, r, cnt);
      SameBytes(bits[..], s);
    }
  }

  /** A shorter stretch of clear bits before a position cannot hold a run that ends there. */
  lemma NoRunYet(v: seq<bool>, at: nat, run: nat, cnt: nat)
    requires run <= at <= |v| && run < cnt
    requires run < at ==> v[at - run - 1]
    ensures !ClearRun(v, at - cnt, cnt)
  {
    if cnt <= at { assert v[at - run - 1]; }
  }

  /** On at most 31 bytes: the least run that ends before the last bit, and 255 exactly when there is none. */
  lemma SmallSearch(bits: seq<bool>, cnt: nat, r: int)
    requires 0 < cnt && |bits| <= 248 && Found(bits, cnt, r)
    ensures r == 255 <==> forall i :: !(ClearRun(bits, i, cnt) && i + cnt < |bits|)
    ensures r != 255 ==> ClearRun(bits, r, cnt) && r + cnt < |bits| && forall j :: j < r ==> !ClearRun(bits, j, cnt)
  {
    if i :| Seen(bits, i, cnt) && (forall j :: j < i ==> !Seen(bits, j, cnt)) && r == i % 256 {
      assert i < 248;
      assert forall j :: j < r && ClearRun(bits, j, cnt) ==> Seen(bits, j, cnt);
    } else {
      assert forall i :: ClearRun(bits, i, cnt) && i + cnt < |bits| ==> Seen(bits, i, cnt);
    }
  }

  /** Exactly when the search meets its declared contract: a run starts at 255, or it can see one below 256. */
  lemma MeetsContract(bits: seq<bool>, cnt: nat, r: int)
    requires 0 < cnt && Found(bits, cnt, r)
    ensures SearchOk(bits, cnt, r) <==>
            ClearRun(bits, 255, cnt) || exists i :: 0 <= i < 256 && Seen(bits, i, cnt)
  {
    if i :| Seen(bits, i, cnt) && (forall j :: j < i ==> !Seen(bits, j, cnt)) && r == i % 256 {
      LeastBelow(bits, cnt, i);
      if i < 256 {
        assert r == i;
      } else {
        assert !Seen(bits, r, cnt);
      }
    }
  }

  /** A run at 255 is seen whenever a later one is, so the least seen run is not past it. */
  lemma LeastBelow(bits: seq<bool>, cnt: nat, i: int)
    requires Seen(bits, i, cnt) && forall j :: j < i ==> !Seen(bits, j, cnt)
    ensures ClearRun(bits, 255, cnt) ==> i <= 255
  {
    assert 255 < i && ClearRun(bits, 255, cnt) ==> Seen(bits, 255, cnt);
  }

  /** It fails on a bitmap whose one clear bit is the last, and on a full one. */
  lemma ContractBroken(r: int)
    requires Found([true, true, true, true, true, true, true, false], 1, r)
    ensures r == 255 && ClearRun([true, true, true, true, true, true, true, false], 7, 1)
    ensures !SearchOk([true, true, true, true, true, true, true, false], 1, r)
  {
    var bits := [true, true, true, true, true, true, true, false];
    forall i ensures !Seen(bits, i, 1) {
      if 0 <= i < 7 { assert bits[i]; }
    }
  }
}

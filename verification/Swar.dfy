/**
  Searching the bytes of a word all at once: each bucket of the hash map keeps one tag
  byte per slot in a 64-bit word.
*/
module Swar {

  const DEFAULT_META: bv64 := 0x8080_8080_8080_8080
  const META_MASK: bv64 := 0xff_ffff_ffff
  const EMPTY_META_SLOT: bv64 := 0x80
  const SLOTS: nat := 5

  /** The i-th byte of a word. */
  function Byte(w: bv64, i: nat): bv64
    requires i < 8
  {
    if i == 0 then w & 0xff
    else if i == 1 then (w >> 8) & 0xff
    else if i == 2 then (w >> 16) & 0xff
    else if i == 3 then (w >> 24) & 0xff
    else if i == 4 then (w >> 32) & 0xff
    else if i == 5 then (w >> 40) & 0xff
    else if i == 6 then (w >> 48) & 0xff
    else (w >> 56) & 0xff
  }

  /** The top bit of byte i. */
  function Mark(i: nat): bv64
    requires i < SLOTS
  {
    if i == 0 then 0x80
    else if i == 1 then 0x8000
    else if i == 2 then 0x80_0000
    else if i == 3 then 0x8000_0000
    else 0x80_0000_0000
  }

  predicate Marked(w: bv64, i: nat)
    requires i < SLOTS
  {
    w & Mark(i) != 0
  }

  /** Only marks of slots are set. */
  predicate MarksOnly(w: bv64) {
    w & 0x80_8080_8080 == w
  }

  function Broadcast(b: bv64): bv64 {
    0x0101_0101_0101_0101 * b
  }

  function MarkZeroBytes(w: bv64): bv64 {
    (w - 0x0101_0101_0101_0101) & !w & 0x8080_8080_8080_8080
  }

  function SetByte(w: bv64, b: bv64, i: nat): bv64
    requires i < 8
  {
    if i == 0 then (w & !0xff) | b
    else if i == 1 then (w & !0xff00) | (b << 8)
    else if i == 2 then (w & !0xff_0000) | (b << 16)
    else if i == 3 then (w & !0xff00_0000) | (b << 24)
    else if i == 4 then (w & !0xff_0000_0000) | (b << 32)
    else if i == 5 then (w & !0xff00_0000_0000) | (b << 40)
    else if i == 6 then (w & !0xff_0000_0000_0000) | (b << 48)
    else (w & !0xff00_0000_0000_0000) | (b << 56)
  }

  function TrailingZeros(w: bv64): (n: nat)
    requires w != 0
    decreases w
  {
    if w & 1 == 1 then 0 else assert (w >> 1) < w && w >> 1 != 0; 1 + TrailingZeros(w >> 1)
  }

  function FirstMarkedByteIndex(w: bv64): nat
    requires w != 0
  {
    TrailingZeros(w) / 8
  }

  /** The slots whose tag may be b. */
  function Search(w: bv64, h2w: bv64): bv64 {
    MarkZeroBytes(w ^ h2w) & META_MASK
  }

  /** The slots whose tag is the empty one. */
  function EmptySlots(w: bv64): bv64 {
    w & (DEFAULT_META & META_MASK)
  }

  /** A byte equal to the tag is always marked; marks are confined to the slots. */
  lemma SearchMisses(w: bv64, b: bv64, i: nat)
    requires i < SLOTS && b < 0x100
    ensures MarksOnly(Search(w, Broadcast(b))) && (Byte(w, i) == b ==> Marked(Search(w, Broadcast(b)), i))
  {
  }

  lemma EmptySearch(w: bv64, i: nat)
    requires i < SLOTS
    ensures MarksOnly(EmptySlots(w)) && (Marked(EmptySlots(w), i) <==> Byte(w, i) >= 0x80)
  {
  }

  lemma ByteSet0(w: bv64, b: bv64, j: nat)
    requires j < 8 && b < 0x100
    ensures Byte((w & !0xff) | b, j) == if j == 0 then b else Byte(w, j)
  {
  }

  lemma ByteSet1(w: bv64, b: bv64, j: nat)
    requires j < 8 && b < 0x100
    ensures Byte((w & !0xff00) | (b << 8), j) == if j == 1 then b else Byte(w, j)
  {
  }

  lemma ByteSet2(w: bv64, b: bv64, j: nat)
    requires j < 8 && b < 0x100
    ensures Byte((w & !0xff_0000) | (b << 16), j) == if j == 2 then b else Byte(w, j)
  {
  }

  lemma ByteSet3(w: bv64, b: bv64, j: nat)
    requires j < 8 && b < 0x100
    ensures Byte((w & !0xff00_0000) | (b << 24), j) == if j == 3 then b else Byte(w, j)
  {
  }

  lemma ByteSet4(w: bv64, b: bv64, j: nat)
    requires j < 8 && b < 0x100
    ensures Byte((w & !0xff_0000_0000) | (b << 32), j) == if j == 4 then b else Byte(w, j)
  {
  }

  /** Setting the byte of a slot changes that byte and no other. */
  lemma ByteSet(w: bv64, b: bv64, i: nat, j: nat)
    requires i < SLOTS && j < 8 && b < 0x100
    ensures Byte(SetByte(w, b, i), j) == if i == j then b else Byte(w, j)
  {
    hide Byte;
    if i == 0 {
      ByteSet0(w, b, j);
    } else if i == 1 {
      ByteSet1(w, b, j);
    } else if i == 2 {
      ByteSet2(w, b, j);
    } else if i == 3 {
      ByteSet3(w, b, j);
    } else {
      ByteSet4(w, b, j);
    }
  }

  /** The first marked slot. */
  lemma FirstMarked(w: bv64)
    requires w != 0 && MarksOnly(w)
    ensures var i := FirstMarkedByteIndex(w);
      i < SLOTS && Marked(w, i) && forall k :: 0 <= k < i ==> !Marked(w, k)
  {
    if w & 0x80 != 0 {
      LowByte(w);
    } else {
      SkipByte(w);
      var w1 := w >> 8;
      if w1 & 0x80 != 0 {
        LowByte(w1);
      } else {
        SkipByte(w1);
        var w2 := w1 >> 8;
        if w2 & 0x80 != 0 {
          LowByte(w2);
        } else {
          SkipByte(w2);
          var w3 := w2 >> 8;
          if w3 & 0x80 != 0 {
            LowByte(w3);
          } else {
            SkipByte(w3);
            LowByte(w3 >> 8);
          }
        }
      }
    }
  }

  lemma LowByte(w: bv64)
    requires w & 0xff == 0x80
    ensures TrailingZeros(w) == 7
  {
    ShiftFour(w);
    var v := w >> 4;
    assert v & 0xf == 0x8;
    ShiftTwice(v);
    var u := v >> 2;
    assert u & 3 == 2;
    ShiftOnce(u);
    assert (u >> 1) & 1 == 1;
  }

  lemma ShiftOnce(w: bv64)
    requires w != 0 && w & 1 == 0
    ensures w >> 1 != 0 && TrailingZeros(w) == 1 + TrailingZeros(w >> 1)
  {
  }

  lemma ShiftTwice(w: bv64)
    requires w != 0 && w & 3 == 0
    ensures w >> 2 != 0 && TrailingZeros(w) == 2 + TrailingZeros(w >> 2)
  {
    hide TrailingZeros;
    ShiftOnce(w);
    ShiftOnce(w >> 1);
    assert (w >> 1) >> 1 == w >> 2;
  }

  lemma ShiftFour(w: bv64)
    requires w != 0 && w & 0xf == 0
    ensures w >> 4 != 0 && TrailingZeros(w) == 4 + TrailingZeros(w >> 4)
  {
    hide TrailingZeros;
    ShiftTwice(w);
    assert (w >> 2) & 3 == 0;
    ShiftTwice(w >> 2);
    assert (w >> 2) >> 2 == w >> 4;
  }

  lemma SkipByte(w: bv64)
    requires w != 0 && w & 0xff == 0
    ensures w >> 8 != 0 && TrailingZeros(w) == 8 + TrailingZeros(w >> 8)
  {
    hide TrailingZeros;
    ShiftFour(w);
    assert (w >> 4) & 0xf == 0;
    ShiftFour(w >> 4);
    assert (w >> 4) >> 4 == w >> 8;
  }

  function ClearLowestBit(w: bv64): bv64 {
    w & (w - 1)
  }

  /** Clearing the lowest set bit takes the first mark away and leaves the others. */
  lemma ClearFirst(w: bv64, k: nat)
    requires w != 0 && MarksOnly(w) && k < SLOTS
    ensures MarksOnly(ClearLowestBit(w)) && ClearLowestBit(w) < w
    ensures Marked(ClearLowestBit(w), k) <==> Marked(w, k) && k != FirstMarkedByteIndex(w)
  {
    FirstMarked(w);
    var i := FirstMarkedByteIndex(w);
    hide FirstMarkedByteIndex;
    ClearLowest(w, i, k);
  }

  lemma ClearLowest(w: bv64, i: nat, k: nat)
    requires w != 0 && MarksOnly(w) && i < SLOTS && k < SLOTS
    requires Marked(w, i) && forall j :: 0 <= j < i ==> !Marked(w, j)
    ensures MarksOnly(ClearLowestBit(w)) && ClearLowestBit(w) < w
    ensures Marked(ClearLowestBit(w), k) <==> Marked(w, k) && k != i
  {
    assert i > 0 ==> !Marked(w, 0);
    assert i > 1 ==> !Marked(w, 1);
    assert i > 2 ==> !Marked(w, 2);
    assert i > 3 ==> !Marked(w, 3);
  }
}

/** Bits of bitmap words: the leftmost pixel is the most significant bit. */
module BitmapWords {

  const WORD_WIDTH: nat := 8

  function BitMask(i: nat): bv8
    requires i < WORD_WIDTH
  {
    if i == 0 then 0x80 else if i == 1 then 0x40 else if i == 2 then 0x20 else if i == 3 then 0x10
    else if i == 4 then 0x08 else if i == 5 then 0x04 else if i == 6 then 0x02 else 0x01
  }

  predicate Bit(w: bv8, i: nat)
    requires i < WORD_WIDTH
  {
    w & BitMask(i) != 0
  }

  // -------------------------------------------------- masks

  /** The mask of the first word of a row, for pixels from x on. */
  function LeftMask(x: nat): bv8 { (0xFF as bv8) >> (x % WORD_WIDTH) }

  /** The mask of the last word of a row, for pixels before xEnd. */
  function RightMask(xEnd: nat): bv8 { (0xFF as bv8) << ((WORD_WIDTH - xEnd % WORD_WIDTH) % WORD_WIDTH) }

  lemma LeftMaskBits(x: nat, i: nat)
    requires i < WORD_WIDTH
    ensures Bit(LeftMask(x), i) <==> i >= x % WORD_WIDTH
  {
    var k := x % WORD_WIDTH;
    if k == 0 {} else if k == 1 {} else if k == 2 {} else if k == 3 {} else if k == 4 {} else if k == 5 {}
    else if k == 6 {} else {}
  }

  lemma RightMaskBits(xEnd: nat, i: nat)
    requires i < WORD_WIDTH && xEnd > 0
    ensures Bit(RightMask(xEnd), i) <==> i <= (xEnd - 1) % WORD_WIDTH
  {
    var k := xEnd % WORD_WIDTH;
    if k == 0 {} else if k == 1 {} else if k == 2 {} else if k == 3 {} else if k == 4 {} else if k == 5 {}
    else if k == 6 {} else {}
  }

  // -------------------------------------------------- combining

  function CombineBits(src1: bv8, src2: bv8, mask: bv8): bv8 { (src1 & !mask) | (src2 & mask) }

  function CombineBitsFgBg(src1: bv8, src2: bv8, mask: bv8, fg: bv8, bg: bv8): bv8
  {
    (src1 & !mask) | (((fg & src2) | (bg & !src2)) & mask)
  }

  function CombineWordsFgBg(src2: bv8, fg: bv8, bg: bv8): bv8 { (fg & src2) | (bg & !src2) }

  /** Bit by bit: the same for each of the eight masks of one bit. */
  lemma CombineAtMask(src1: bv8, src2: bv8, mask: bv8, fg: bv8, bg: bv8, k: bv8)
    requires k == 0x80 || k == 0x40 || k == 0x20 || k == 0x10 || k == 0x08 || k == 0x04 || k == 0x02 || k == 0x01
    ensures CombineBits(src1, src2, mask) & k != 0 <==> if mask & k != 0 then src2 & k != 0 else src1 & k != 0
    ensures CombineWordsFgBg(src2, fg, bg) & k != 0 <==> if src2 & k != 0 then fg & k != 0 else bg & k != 0
    ensures CombineBitsFgBg(src1, src2, mask, fg, bg) == CombineBits(src1, CombineWordsFgBg(src2, fg, bg), mask)
  {}

  lemma CombineBitsBit(src1: bv8, src2: bv8, mask: bv8, i: nat)
    requires i < WORD_WIDTH
    ensures Bit(CombineBits(src1, src2, mask), i) == if Bit(mask, i) then Bit(src2, i) else Bit(src1, i)
  {
    hide CombineBits, BitMask;
    OneBit(i);
    CombineAtMask(src1, src2, mask, 0, 0, BitMask(i));
  }

  lemma OneBit(i: nat)
    requires i < WORD_WIDTH
    ensures var k := BitMask(i);
      k == 0x80 || k == 0x40 || k == 0x20 || k == 0x10 || k == 0x08 || k == 0x04 || k == 0x02 || k == 0x01
  {}

  lemma CombineFgBgBit(src1: bv8, src2: bv8, mask: bv8, fg: bv8, bg: bv8, i: nat)
    requires i < WORD_WIDTH
    ensures Bit(CombineBitsFgBg(src1, src2, mask, fg, bg), i) ==
      if !Bit(mask, i) then Bit(src1, i) else if Bit(src2, i) then Bit(fg, i) else Bit(bg, i)
    ensures Bit(CombineWordsFgBg(src2, fg, bg), i) == if Bit(src2, i) then Bit(fg, i) else Bit(bg, i)
  {
    hide CombineBits, CombineWordsFgBg, CombineBitsFgBg, BitMask;
    OneBit(i);
    CombineAtMask(src1, src2, mask, fg, bg, BitMask(i));
    CombineAtMask(src1, CombineWordsFgBg(src2, fg, bg), mask, fg, bg, BitMask(i));
  }

  // -------------------------------------------------- the quad word

  function Byte(b: bv32, j: nat): bv8
    requires j < 3
  {
    if j == 0 then (b & 0xFF) as bv8 else if j == 1 then ((b >> 8) & 0xFF) as bv8 else ((b >> 16) & 0xFF) as bv8
  }

  function Pushed(b: bv32, w: bv8): bv32 { (b << 8) | (w as bv32) }

  lemma PushedBytes(b: bv32, w: bv8)
    ensures Byte(Pushed(b, w), 0) == w && Byte(Pushed(b, w), 1) == Byte(b, 0) && Byte(Pushed(b, w), 2) == Byte(b, 1)
  {}

  /** b >> realignment, as a bitmap word. */
  function Realigned(b: bv32, r: nat): bv8
    requires r < 16
  {
    ((b >> r) & 0xFF) as bv8
  }

  function ShiftRight(w: bv8, k: nat): bv8
    requires k < WORD_WIDTH
  {
    w >> k
  }

  function ShiftLeft(w: bv8, k: nat): bv8
    requires k <= WORD_WIDTH
  {
    w << k
  }

  lemma ShiftRightBit(w: bv8, k: nat, i: nat)
    requires k < WORD_WIDTH && i < WORD_WIDTH
    ensures Bit(ShiftRight(w, k), i) <==> i >= k && Bit(w, i - k)
  {
    if k == 0 {} else if k == 1 {} else if k == 2 {} else if k == 3 {} else if k == 4 {} else if k == 5 {}
    else if k == 6 {} else {}
  }

  lemma ShiftLeftBit(w: bv8, k: nat, i: nat)
    requires 0 < k <= WORD_WIDTH && i < WORD_WIDTH
    ensures Bit(ShiftLeft(w, k), i) <==> i + k < WORD_WIDTH && Bit(w, i + k)
  {
    if k == 1 {} else if k == 2 {} else if k == 3 {} else if k == 4 {} else if k == 5 {} else if k == 6 {}
    else if k == 7 {} else {}
  }

  lemma OrBit(v: bv8, w: bv8, i: nat)
    requires i < WORD_WIDTH
    ensures Bit(v | w, i) <==> Bit(v, i) || Bit(w, i)
  {}

  /** A word cut out of two words, k bits up from the end of the second. */
  function Across(hi: bv8, lo: bv8, k: nat): bv8
    requires k < WORD_WIDTH
  {
    ShiftRight(lo, k) | ShiftLeft(hi, WORD_WIDTH - k)
  }

  lemma Across0To2(b: bv32)
    ensures Realigned(b, 0) == Across(Byte(b, 1), Byte(b, 0), 0)
    ensures Realigned(b, 1) == Across(Byte(b, 1), Byte(b, 0), 1)
    ensures Realigned(b, 2) == Across(Byte(b, 1), Byte(b, 0), 2)
  {}

  lemma Across3To5(b: bv32)
    ensures Realigned(b, 3) == Across(Byte(b, 1), Byte(b, 0), 3)
    ensures Realigned(b, 4) == Across(Byte(b, 1), Byte(b, 0), 4)
    ensures Realigned(b, 5) == Across(Byte(b, 1), Byte(b, 0), 5)
  {}

  lemma Across6To7(b: bv32)
    ensures Realigned(b, 6) == Across(Byte(b, 1), Byte(b, 0), 6)
    ensures Realigned(b, 7) == Across(Byte(b, 1), Byte(b, 0), 7)
  {}

  lemma Across8To10(b: bv32)
    ensures Realigned(b, 8) == Across(Byte(b, 2), Byte(b, 1), 0)
    ensures Realigned(b, 9) == Across(Byte(b, 2), Byte(b, 1), 1)
    ensures Realigned(b, 10) == Across(Byte(b, 2), Byte(b, 1), 2)
  {}

  lemma Across11To13(b: bv32)
    ensures Realigned(b, 11) == Across(Byte(b, 2), Byte(b, 1), 3)
    ensures Realigned(b, 12) == Across(Byte(b, 2), Byte(b, 1), 4)
    ensures Realigned(b, 13) == Across(Byte(b, 2), Byte(b, 1), 5)
  {}

  lemma Across14To15(b: bv32)
    ensures Realigned(b, 14) == Across(Byte(b, 2), Byte(b, 1), 6)
    ensures Realigned(b, 15) == Across(Byte(b, 2), Byte(b, 1), 7)
  {}

  lemma RealignedIsAcross(b: bv32, r: nat)
    requires r < 16
    ensures Realigned(b, r) ==
      if r < 8 then Across(Byte(b, 1), Byte(b, 0), r) else Across(Byte(b, 2), Byte(b, 1), r - 8)
  {
    hide Realigned, Across, Byte;
    Across0To2(b);
    Across3To5(b);
    Across6To7(b);
    Across8To10(b);
    Across11To13(b);
    Across14To15(b);
  }

  lemma AcrossBit(hi: bv8, lo: bv8, k: nat, i: nat)
    requires k < WORD_WIDTH && i < WORD_WIDTH
    ensures Bit(Across(hi, lo, k), i) == if i >= k then Bit(lo, i - k) else Bit(hi, 8 + i - k)
  {
    hide Bit, BitMask, ShiftRight, ShiftLeft;
    OrBit(ShiftRight(lo, k), ShiftLeft(hi, WORD_WIDTH - k), i);
    ShiftRightBit(lo, k, i);
    ShiftLeftBit(hi, WORD_WIDTH - k, i);
  }

  /** Bit i of the realigned word, by its distance from the low end of the quad
      word. */
  lemma RealignedBit(b: bv32, r: nat, i: nat)
    requires 1 <= r <= 15 && i < WORD_WIDTH
    ensures var p := r + 7 - i; Bit(Realigned(b, r), i) == Bit(Byte(b, p / 8), 7 - p % 8)
  {
    hide Bit, Realigned, Byte, Across;
    RealignedIsAcross(b, r);
    AcrossBit(Byte(b, r / 8 + 1), Byte(b, r / 8), r % 8, i);
  }
}

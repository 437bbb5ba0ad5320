/** One row of one layer: the word loops of video.cpp against their definition
    pixel by pixel. */
module BitmapRows {
  import opened BitmapWords

  /** Pixel q of the stream of words that starts at word s. */
  predicate StreamBit(ws: seq<bv8>, s: nat, q: nat)
    requires s + q / 8 < |ws|
  {
    Bit(ws[s + q / 8], q % 8)
  }

  /** The index of the last destination word, counted from the first. */
  function LastWord(x: nat, xEnd: nat): nat
    requires x < xEnd
  {
    (xEnd - 1) / 8 - x / 8
  }

  /** The index of the last source word needed, counted from the first. */
  function LastSource(x: nat, xEnd: nat, srcX: nat): nat
    requires x < xEnd
  {
    (srcX % 8 + (xEnd - x) - 1) / 8
  }

  /** The pixel number of bit i of destination word c. */
  function PixelNumber(x: nat, c: nat, i: nat): nat { 8 * (x / 8) + 8 * c + i }

  /** The source pixel for a destination pixel, counted in the stream. */
  function SourceNumber(x: nat, srcX: nat, px: nat): nat
    requires px >= x
  {
    srcX % 8 + (px - x)
  }

  /** realignment: 8 more than the difference of the two positions in a word, since
      the exclusive or only flips the bit of weight 8. */
  function Realignment(x: nat, srcX: nat): (r: nat)
    ensures 1 <= r <= 15 && r == 8 + x % 8 - srcX % 8
  {
    var m := (x % 8 - srcX % 8) % 16;
    if m < 8 then m + 8 else m - 8
  }

  /** Word c is what it should be: every pixel of the span shows the foreground
      where its source pixel is set and the background elsewhere; the others are as
      they were. */
  ghost predicate BlitWord(w: bv8, was: bv8, src: seq<bv8>, s: nat, x: nat, xEnd: nat, srcX: nat, c: nat, fg: bv8,
                           bg: bv8)
  {
    forall i :: 0 <= i < 8 ==>
      var px := PixelNumber(x, c, i);
      Bit(w, i) ==
      if x <= px < xEnd then
        var q := SourceNumber(x, srcX, px);
        s + q / 8 < |src| && if StreamBit(src, s, q) then Bit(fg, i) else Bit(bg, i)
      else Bit(was, i)
  }

  /** What the running quad word b holds before word c is written: the last three
      words read, as far as they are needed. */
  ghost predicate Window(b: bv32, src: seq<bv8>, s: nat, last: nat, c: nat)
  {
    forall j :: 0 <= j < 3 && 0 <= c + 1 - j <= last && s + last < |src| ==> Byte(b, j) == src[s + c + 1 - j]
  }

  lemma WindowMoves(b: bv32, src: seq<bv8>, s: nat, last: nat, c: nat, w: bv8)
    requires Window(b, src, s, last, c) && s + last < |src| && (c + 2 <= last ==> w == src[s + c + 2])
    ensures Window(Pushed(b, w), src, s, last, c + 1)
  {
    PushedBytes(b, w);
    hide Byte, Pushed;
    forall j | 0 <= j < 3 && 0 <= c + 2 - j <= last ensures Byte(Pushed(b, w), j) == src[s + c + 2 - j] {
      if j > 0 { assert 0 <= c + 1 - (j - 1) <= last; }
    }
  }

  /** A realigned bit is the source pixel it should be. */
  lemma RealignedIsSource(b: bv32, src: seq<bv8>, s: nat, x: nat, xEnd: nat, srcX: nat, c: nat, i: nat)
    requires x < xEnd && s + LastSource(x, xEnd, srcX) < |src| && i < 8
    requires Window(b, src, s, LastSource(x, xEnd, srcX), c) && x <= PixelNumber(x, c, i) < xEnd
    ensures var q := SourceNumber(x, srcX, PixelNumber(x, c, i));
      s + q / 8 < |src| && Bit(Realigned(b, Realignment(x, srcX)), i) == StreamBit(src, s, q)
  {
    hide Bit, Byte, Realigned;
    var r, q := Realignment(x, srcX), SourceNumber(x, srcX, PixelNumber(x, c, i));
    var p := r + 7 - i;
    RealignedBit(b, r, i);
    assert q == 8 * (c + 1) + 7 - p;
    assert q / 8 == c + 1 - p / 8 && q % 8 == 7 - p % 8;
    assert q / 8 <= LastSource(x, xEnd, srcX);
  }

  /** The three ways in which a word is written. */
  lemma WrittenWord(b: bv32, was: bv8, src: seq<bv8>, s: nat, x: nat, xEnd: nat, srcX: nat, c: nat, fg: bv8, bg: bv8,
                    m: bv8)
    requires x < xEnd && s + LastSource(x, xEnd, srcX) < |src|
    requires Window(b, src, s, LastSource(x, xEnd, srcX), c)
    requires forall i :: 0 <= i < 8 ==> (Bit(m, i) <==> x <= PixelNumber(x, c, i) < xEnd)
    ensures BlitWord(CombineBitsFgBg(was, Realigned(b, Realignment(x, srcX)), m, fg, bg), was,
                     src, s, x, xEnd, srcX, c, fg, bg)
    ensures (forall i :: 0 <= i < 8 ==> Bit(m, i)) ==>
      BlitWord(CombineWordsFgBg(Realigned(b, Realignment(x, srcX)), fg, bg), was, src, s, x, xEnd, srcX, c, fg, bg)
  {
    hide Bit, Realigned, Window, CombineBitsFgBg, CombineWordsFgBg, PixelNumber, SourceNumber, StreamBit;
    var v := Realigned(b, Realignment(x, srcX));
    forall i | 0 <= i < 8
      ensures var px := PixelNumber(x, c, i);
        Bit(CombineBitsFgBg(was, v, m, fg, bg), i) ==
          (if x <= px < xEnd then
             var q := SourceNumber(x, srcX, px);
             s + q / 8 < |src| && if StreamBit(src, s, q) then Bit(fg, i) else Bit(bg, i)
           else Bit(was, i))
      ensures Bit(m, i) ==> Bit(CombineWordsFgBg(v, fg, bg), i) == Bit(CombineBitsFgBg(was, v, m, fg, bg), i)
    {
      CombineFgBgBit(was, v, m, fg, bg, i);
      if x <= PixelNumber(x, c, i) < xEnd { RealignedIsSource(b, src, s, x, xEnd, srcX, c, i); }
    }
  }

  lemma FirstMask(x: nat, xEnd: nat)
    requires x < xEnd && LastWord(x, xEnd) > 0
    ensures forall i :: 0 <= i < 8 ==> (Bit(LeftMask(x), i) <==> x <= PixelNumber(x, 0, i) < xEnd)
  {
    forall i | 0 <= i < 8 ensures Bit(LeftMask(x), i) <==> x <= PixelNumber(x, 0, i) < xEnd { LeftMaskBits(x, i); }
  }

  lemma MiddleMask(x: nat, xEnd: nat, c: nat)
    requires x < xEnd && 0 < c < LastWord(x, xEnd)
    ensures forall i :: 0 <= i < 8 ==> Bit(0xFF, i) && x <= PixelNumber(x, c, i) < xEnd
  {}

  lemma FinalMask(x: nat, xEnd: nat)
    requires x < xEnd && LastWord(x, xEnd) > 0
    ensures forall i :: 0 <= i < 8 ==> (Bit(RightMask(xEnd), i) <==> x <= PixelNumber(x, LastWord(x, xEnd), i) < xEnd)
  {
    forall i | 0 <= i < 8 ensures Bit(RightMask(xEnd), i) <==> x <= PixelNumber(x, LastWord(x, xEnd), i) < xEnd {
      RightMaskBits(xEnd, i);
    }
  }

  lemma OnlyMask(x: nat, xEnd: nat)
    requires x < xEnd && LastWord(x, xEnd) == 0
    ensures forall i :: 0 <= i < 8 ==> (Bit(LeftMask(x) & RightMask(xEnd), i) <==> x <= PixelNumber(x, 0, i) < xEnd)
  {
    forall i | 0 <= i < 8 ensures Bit(LeftMask(x) & RightMask(xEnd), i) <==> x <= PixelNumber(x, 0, i) < xEnd {
      LeftMaskBits(x, i);
      RightMaskBits(xEnd, i);
      AndBit(LeftMask(x), RightMask(xEnd), i);
      hide LeftMask, RightMask, Bit;
    }
  }

  lemma AndBit(v: bv8, w: bv8, i: nat)
    requires i < 8
    ensures Bit(v & w, i) <==> Bit(v, i) && Bit(w, i)
  {}
}

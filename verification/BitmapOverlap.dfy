/** Transfers within one layer: when the source is read in time. */
module BitmapOverlap {
  import opened Products
  import opened BitmapWords
  import opened BitmapRows
  import opened BitmapLoops
  import opened BitmapRects

  /** The source is below the destination; or in the same rows and not two words or
      more to the left, or wholly to the left; or above it and not overlapping it. */
  predicate RowsInTime(g: Geometry)
    requires Inside(g)
  {
    var w, h := g.xEnd - g.x, g.yEnd - g.y;
    || g.srcY > g.y
    || (g.srcY == g.y && (g.srcX / 8 + 1 >= g.x / 8 || g.srcX + w <= g.x))
    || (g.srcY < g.y && (g.srcY + h <= g.y || g.srcX + w <= g.x || g.xEnd <= g.srcX))
  }

  /** Pixel p of the source row for row n is a pixel of the destination that is
      written before the word of p is read: rows are done from the top, and in its own
      row the word is overtaken. */
  predicate OverwrittenFirst(g: Geometry, n: nat, p: nat)
    requires Inside(g) && g.srcX <= p
  {
    && g.x <= p < g.xEnd && g.y <= g.srcY + n < g.yEnd
    && (g.srcY + n < g.y + n
        || (g.srcY == g.y && Overtaken(DestStart(g, g.y + n), SourceStart(g, g.y + n), p / 8 - g.srcX / 8)))
  }

  /** The condition is exact: it holds if and only if no source pixel that is needed
      is overwritten before it is read. */
  lemma RowsInTimeExactlyWhen(g: Geometry)
    requires Inside(g) && g.sw == g.w && g.sh == g.h
    ensures RowsInTime(g) <==>
      forall n: nat, p: nat :: n < g.yEnd - g.y && g.srcX <= p < g.srcX + (g.xEnd - g.x) ==> !OverwrittenFirst(g, n, p)
  {
    if !RowsInTime(g) {
      var n := g.y - g.srcY;
      var p := if g.x < g.srcX then g.srcX else g.x;
      assert OverwrittenFirst(g, n, p);
    }
  }

  /** Where a source word lies that was overtaken: in the row that is being written,
      two words or more to the left of the destination. */
  lemma OvertakenIsLeft(g: Geometry, n: nat, k: nat)
    requires Inside(g) && g.sw == g.w && g.sh == g.h && g.y + n < g.yEnd && k <= LastSource(g.x, g.xEnd, g.srcX)
    requires Overtaken(DestStart(g, g.y + n), SourceStart(g, g.y + n), k)
    ensures g.srcY == g.y && g.srcX / 8 + 2 <= g.x / 8
    ensures var j, d := SourceStart(g, g.y + n) + k, DestStart(g, g.y + n);
      d <= j <= d + LastWord(g.x, g.xEnd) && j - d == g.srcX / 8 + k - g.x / 8
  {
    SpanFits(g, g.y + n);
    assert LastSource(g.x, g.xEnd, g.srcX) <= LastWord(g.x, g.xEnd) + 1;
    var sy, dy := g.srcY + n, g.y + n;
    if sy < dy { RowsApart(g.w, sy, dy); } else if dy < sy { RowsApart(g.w, dy, sy); }
    hide LastWord, LastSource;
  }

  /** A pixel outside the span, in a word that may have been written. */
  lemma OutsidePixel(w: bv8, was: bv8, src: seq<bv8>, s: nat, x: nat, xEnd: nat, srcX: nat, c: nat, i: nat, fg: bv8,
                     bg: bv8)
    requires BlitWord(w, was, src, s, x, xEnd, srcX, c, fg, bg) && i < 8
    requires !(x <= PixelNumber(x, c, i) < xEnd)
    ensures Bit(w, i) == Bit(was, i)
  {
    hide Bit;
  }

  /** The source row as it is when row n is started: what is needed of it is as it was. */
  lemma StillThere(before: seq<bv8>, was: seq<bv8>, g: Geometry, fg: Pattern, bg: Pattern, layer: nat, n: nat, q: nat)
    requires Inside(g) && PatternOk(fg) && PatternOk(bg) && g.sw == g.w && g.sh == g.h && |was| == g.w * g.h
    requires LayerDone(before, was, was, g, fg, bg, layer, n) && RowsInTime(g) && g.y + n < g.yEnd
    requires g.srcX % 8 <= q < g.srcX % 8 + (g.xEnd - g.x)
    ensures SourceStart(g, g.y + n) + q / 8 < |was|
    ensures StreamBit(before, SourceStart(g, g.y + n), q) == StreamBit(was, SourceStart(g, g.y + n), q)
  {
    hide *;
    SpanFits(g, g.y + n);
    NeededWord(g, q);
    SourceRow(g, n, q);
    var sy, j := g.srcY + n, SourceStart(g, g.y + n) + q / 8;
    RowOfLayer(before, was, g, fg, bg, layer, n, sy);
    if g.y <= sy < g.y + n {
      var d := DestStart(g, sy);
      DoneRowWord(before, was, g, sy, j, PatternWord(fg, sy, layer), PatternWord(bg, sy, layer));
      if d <= j <= d + LastWord(g.x, g.xEnd) {
        OutsideSpan(g, n, q);
        OutsidePixel(before[j], was[j], was, SourceStart(g, sy), g.x, g.xEnd, g.srcX, j - d, q % 8,
                     PatternWord(fg, sy, layer), PatternWord(bg, sy, layer));
      }
    } else {
      SameRowWord(before, was, g.w, sy, j);
    }
    SameStream(before, was, SourceStart(g, g.y + n), q);
  }

  /** The word of a needed pixel is in the source row. */
  lemma SourceRow(g: Geometry, n: nat, q: nat)
    requires Inside(g) && g.sw == g.w && g.sh == g.h && g.y + n < g.yEnd && q / 8 <= LastSource(g.x, g.xEnd, g.srcX)
    ensures var sy, j := g.srcY + n, SourceStart(g, g.y + n) + q / 8;
      sy < g.h && sy * g.w <= j < sy * g.w + g.w <= g.w * g.h
  {
    SpanFits(g, g.y + n);
    hide LastSource;
  }

  lemma RowOfLayer(before: seq<bv8>, was: seq<bv8>, g: Geometry, fg: Pattern, bg: Pattern, layer: nat, n: nat, sy: nat)
    requires Inside(g) && PatternOk(fg) && PatternOk(bg) && LayerDone(before, was, was, g, fg, bg, layer, n) && sy < g.h
    ensures |before| == |was|
    ensures if g.y <= sy < g.y + n
      then RowDone(before, was, was, g, sy, PatternWord(fg, sy, layer), PatternWord(bg, sy, layer))
      else RowSame(before, was, g.w, sy)
  {}

  lemma DoneRowWord(before: seq<bv8>, was: seq<bv8>, g: Geometry, sy: nat, j: nat, fgw: bv8, bgw: bv8)
    requires |before| == |was| && g.x < g.xEnd && sy >= g.y && RowDone(before, was, was, g, sy, fgw, bgw)
    requires j < |was| && sy * g.w <= j < sy * g.w + g.w
    ensures var d := DestStart(g, sy);
      if d <= j <= d + LastWord(g.x, g.xEnd)
      then BlitWord(before[j], was[j], was, SourceStart(g, sy), g.x, g.xEnd, g.srcX, j - d, fgw, bgw)
      else before[j] == was[j]
  {
    hide BlitWord, LastWord, DestStart, SourceStart;
  }

  lemma SameRowWord(before: seq<bv8>, was: seq<bv8>, w: nat, sy: nat, j: nat)
    requires |before| == |was| && RowSame(before, was, w, sy) && j < |was| && sy * w <= j < sy * w + w
    ensures before[j] == was[j]
  {}

  /** In a row that is done, a needed pixel is outside the span. */
  lemma OutsideSpan(g: Geometry, n: nat, q: nat)
    requires Inside(g) && g.sw == g.w && RowsInTime(g) && g.y + n < g.yEnd && g.y <= g.srcY + n < g.y + n
    requires g.srcX % 8 <= q < g.srcX % 8 + (g.xEnd - g.x)
    requires SourceStart(g, g.y + n) + q / 8 >= DestStart(g, g.srcY + n)
    ensures var c := SourceStart(g, g.y + n) + q / 8 - DestStart(g, g.srcY + n);
      !(g.x <= PixelNumber(g.x, c, q % 8) < g.xEnd)
  {
    assert 8 * (q / 8) + q % 8 == q;
  }

  lemma SameStream(before: seq<bv8>, was: seq<bv8>, s: nat, q: nat)
    requires |before| == |was| && s + q / 8 < |was| && Bit(before[s + q / 8], q % 8) == Bit(was[s + q / 8], q % 8)
    ensures StreamBit(before, s, q) == StreamBit(was, s, q)
  {}

  /** What row n sees of its source within one layer is what was there at the start, as
      far as it is needed. */
  lemma SeenIsRight(before: seq<bv8>, now: seq<bv8>, was: seq<bv8>, seen: seq<bv8>, g: Geometry, fg: Pattern,
                    bg: Pattern, layer: nat, n: nat)
    requires Inside(g) && PatternOk(fg) && PatternOk(bg) && g.sw == g.w && g.sh == g.h && |was| == g.w * g.h
    requires LayerDone(before, was, was, g, fg, bg, layer, n) && RowsInTime(g) && g.y + n < g.yEnd && |now| == |was|
    requires var d, s := DestStart(g, g.y + n), SourceStart(g, g.y + n);
      && Seen(seen, before, now, true, d, s, LastSource(g.x, g.xEnd, g.srcX))
      && forall k: nat :: d <= k <= d + LastWord(g.x, g.xEnd) && k < |now| ==>
           BlitWord(now[k], before[k], seen, s, g.x, g.xEnd, g.srcX, k - d,
                    PatternWord(fg, g.y + n, layer), PatternWord(bg, g.y + n, layer))
    ensures NeededSame(seen, was, SourceStart(g, g.y + n), g.x, g.xEnd, g.srcX)
  {
    var s := SourceStart(g, g.y + n);
    SpanFits(g, g.y + n);
    hide LayerDone, RowsInTime, Seen, PatternWord, BlitWord;
    LayerKeepsSize(before, was, g, fg, bg, layer, n);
    SeenSize(seen, before, now, DestStart(g, g.y + n), s, LastSource(g.x, g.xEnd, g.srcX));
    forall q: nat | g.srcX % 8 <= q < g.srcX % 8 + (g.xEnd - g.x) && s + q / 8 < |was|
      ensures StreamBit(seen, s, q) == StreamBit(was, s, q)
    {
      SeenBit(before, now, was, seen, g, fg, bg, layer, n, q);
    }
  }

  lemma SeenSize(seen: seq<bv8>, before: seq<bv8>, now: seq<bv8>, d: nat, s: nat, last: nat)
    requires Seen(seen, before, now, true, d, s, last)
    ensures |seen| == |before|
  {}

  /** A needed pixel of a word that was overtaken is in front of the destination. */
  lemma OvertakenIsOutside(g: Geometry, n: nat, q: nat)
    requires Inside(g) && g.sw == g.w && g.sh == g.h && g.y + n < g.yEnd && RowsInTime(g)
    requires g.srcX % 8 <= q < g.srcX % 8 + (g.xEnd - g.x)
    requires Overtaken(DestStart(g, g.y + n), SourceStart(g, g.y + n), q / 8)
    ensures var j, d := SourceStart(g, g.y + n) + q / 8, DestStart(g, g.y + n);
      d <= j <= d + LastWord(g.x, g.xEnd) && PixelNumber(g.x, j - d, q % 8) < g.x
  {
    assert q / 8 <= LastSource(g.x, g.xEnd, g.srcX);
    OvertakenIsLeft(g, n, q / 8);
    hide LastSource, LastWord, DestStart, SourceStart, Overtaken;
    assert g.srcX + (g.xEnd - g.x) <= g.x;
    assert 8 * (g.srcX / 8) + q < g.srcX + (g.xEnd - g.x);
  }

  lemma SeenBit(before: seq<bv8>, now: seq<bv8>, was: seq<bv8>, seen: seq<bv8>, g: Geometry, fg: Pattern, bg: Pattern,
                layer: nat, n: nat, q: nat)
    requires Inside(g) && PatternOk(fg) && PatternOk(bg) && g.sw == g.w && g.sh == g.h && |was| == g.w * g.h
    requires LayerDone(before, was, was, g, fg, bg, layer, n) && RowsInTime(g) && g.y + n < g.yEnd && |now| == |was|
    requires g.srcX % 8 <= q < g.srcX % 8 + (g.xEnd - g.x)
    requires var d, s := DestStart(g, g.y + n), SourceStart(g, g.y + n);
      && Seen(seen, before, now, true, d, s, LastSource(g.x, g.xEnd, g.srcX))
      && forall k: nat :: d <= k <= d + LastWord(g.x, g.xEnd) && k < |now| ==>
           BlitWord(now[k], before[k], seen, s, g.x, g.xEnd, g.srcX, k - d,
                    PatternWord(fg, g.y + n, layer), PatternWord(bg, g.y + n, layer))
    ensures SourceStart(g, g.y + n) + q / 8 < |was| == |seen|
    ensures StreamBit(seen, SourceStart(g, g.y + n), q) == StreamBit(was, SourceStart(g, g.y + n), q)
  {
    hide *;
    var s, d, k := SourceStart(g, g.y + n), DestStart(g, g.y + n), q / 8;
    StillThere(before, was, g, fg, bg, layer, n, q);
    NeededWord(g, q);
    SeenWord(seen, before, now, d, s, LastSource(g.x, g.xEnd, g.srcX), k);
    if Overtaken(d, s, k) {
      OvertakenIsOutside(g, n, q);
      OutsidePixel(now[s + k], before[s + k], seen, s, g.x, g.xEnd, g.srcX, s + k - d, q % 8,
                   PatternWord(fg, g.y + n, layer), PatternWord(bg, g.y + n, layer));
    }
    SeenStream(seen, before, now, was, d, s, q);
    LayerKeepsSize(before, was, g, fg, bg, layer, n);
  }

  lemma LayerKeepsSize(before: seq<bv8>, was: seq<bv8>, g: Geometry, fg: Pattern, bg: Pattern, layer: nat, n: nat)
    requires Inside(g) && PatternOk(fg) && PatternOk(bg) && LayerDone(before, was, was, g, fg, bg, layer, n)
    ensures |before| == |was|
  {}

  lemma NeededWord(g: Geometry, q: nat)
    requires Inside(g) && g.srcX % 8 <= q < g.srcX % 8 + (g.xEnd - g.x)
    ensures q / 8 <= LastSource(g.x, g.xEnd, g.srcX)
  {}

  lemma SeenStream(seen: seq<bv8>, before: seq<bv8>, now: seq<bv8>, was: seq<bv8>, d: nat, s: nat, q: nat)
    requires SeenAt(seen, before, now, true, d, s, q / 8) && s + q / 8 < |was|
    requires StreamBit(before, s, q) == StreamBit(was, s, q)
    requires Overtaken(d, s, q / 8) ==> Bit(now[s + q / 8], q % 8) == Bit(before[s + q / 8], q % 8)
    ensures StreamBit(seen, s, q) == StreamBit(was, s, q)
  {
    hide Bit;
  }

  lemma SeenWord(seen: seq<bv8>, before: seq<bv8>, now: seq<bv8>, d: nat, s: nat, last: nat, k: nat)
    requires Seen(seen, before, now, true, d, s, last) && k <= last
    ensures |seen| == |before| && SeenAt(seen, before, now, true, d, s, k)
  {}

  /** A source apart from the destination reads as it is. */
  lemma ApartIsRight(seen: seq<bv8>, src: seq<bv8>, now: seq<bv8>, d: nat, s: nat, x: nat, xEnd: nat, srcX: nat)
    requires x < xEnd && Seen(seen, src, now, false, d, s, LastSource(x, xEnd, srcX))
    ensures NeededSame(seen, src, s, x, xEnd, srcX)
  {
    hide Bit;
    var last := LastSource(x, xEnd, srcX);
    assert SeenAt(seen, src, now, false, d, s, last);
    forall q: nat | srcX % 8 <= q < srcX % 8 + (xEnd - x) && s + q / 8 < |src|
      ensures StreamBit(seen, s, q) == StreamBit(src, s, q)
    {
      assert q / 8 <= last;
      assert SeenAt(seen, src, now, false, d, s, q / 8);
    }
  }
}

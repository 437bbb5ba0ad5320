/** Rectangles: raw_bitmap_bitblt, raw_bitmap_fill_rect and raw_bitmap_invert_rect
    against their definitions pixel by pixel. */
module BitmapRects {
  import opened Products
  import opened BitmapWords
  import opened BitmapRows

  datatype Pattern = Pattern(words: seq<bv8>, height: nat, depth: nat)

  predicate PatternOk(p: Pattern) { p.height > 0 && p.depth > 0 && |p.words| == p.height * p.depth }

  /** The rows of one plane of a pattern. */
  function Plane(p: Pattern, k: nat): (rows: seq<bv8>)
    requires PatternOk(p) && k < p.depth
    ensures |rows| == p.height
  {
    PlaneFits(p.height, k, p.depth);
    p.words[p.height * k..p.height * k + p.height]
  }

  lemma PlaneFits(n: nat, k: nat, m: nat)
    requires k < m
    ensures n * k + n <= n * m
  {
    RowsApart(n, k, m);
    assert n * k == k * n && n * m == m * n;
  }

  /** A pattern repeats in both directions, and its planes repeat over the layers. */
  predicate PatternPixel(p: Pattern, px: nat, py: nat, layer: nat)
    requires PatternOk(p)
  {
    Bit(Plane(p, layer % p.depth)[py % p.height], px % 8)
  }

  /** pattern_get_word: eight pixels of a row. */
  function PatternWord(p: Pattern, y: nat, layer: nat): bv8
    requires PatternOk(p)
  {
    PatternIndex(y % p.height, p.height, layer % p.depth, p.depth);
    p.words[y % p.height + p.height * (layer % p.depth)]
  }

  lemma WordOfPattern(p: Pattern, px: nat, py: nat, layer: nat)
    requires PatternOk(p)
    ensures Bit(PatternWord(p, py, layer), px % 8) == PatternPixel(p, px, py, layer)
  {
    hide Bit;
    var i, k := py % p.height, layer % p.depth;
    PatternIndex(i, p.height, k, p.depth);
    PlaneAt(p, k, i);
  }

  lemma PlaneAt(p: Pattern, k: nat, i: nat)
    requires PatternOk(p) && k < p.depth && i < p.height
    ensures i + p.height * k < |p.words| && Plane(p, k)[i] == p.words[i + p.height * k]
  {
    PatternIndex(i, p.height, k, p.depth);
    PlaneFits(p.height, k, p.depth);
  }

  lemma PatternIndex(i: nat, n: nat, j: nat, m: nat)
    requires i < n && j < m
    ensures i + n * j < n * m
  {
    RowsApart(n, j, m);
    assert n * j == j * n && n * m == m * n;
  }

  /** Where a transfer goes and comes from, in words per row, rows and pixels. */
  datatype Geometry = Geometry(w: nat, h: nat, x: nat, y: nat, xEnd: nat, yEnd: nat, sw: nat, sh: nat, srcX: nat,
                               srcY: nat)

  predicate Inside(g: Geometry)
  {
    && g.x < g.xEnd <= 8 * g.w && g.y < g.yEnd <= g.h
    && g.srcX + (g.xEnd - g.x) <= 8 * g.sw && g.srcY + (g.yEnd - g.y) <= g.sh
  }

  // -------------------------------------------------- pixels

  lemma InLayer(w: nat, h: nat, px: nat, py: nat)
    requires px < 8 * w && py < h
    ensures py * w + px / 8 < w * h && px / 8 < w && (py * (8 * w) + px) / 8 == py * w + px / 8
  {
    assert px == 8 * (px / 8) + px % 8;
    RowsApart(w, py, h);
    assert w * h == h * w;
    assert py * (8 * w) == 8 * (py * w);
  }

  predicate Pixel(ws: seq<bv8>, w: nat, h: nat, px: nat, py: nat)
    requires |ws| == w * h && px < 8 * w && py < h
  {
    InLayer(w, h, px, py);
    Bit(ws[py * w + px / 8], px % 8)
  }

  // -------------------------------------------------- layers

  function DestStart(g: Geometry, py: nat): nat { py * g.w + g.x / 8 }

  function SourceStart(g: Geometry, py: nat): nat
    requires py >= g.y
  {
    (g.srcY + (py - g.y)) * g.sw + g.srcX / 8
  }

  ghost predicate RowSame(now: seq<bv8>, was: seq<bv8>, w: nat, py: nat)
    requires |now| == |was|
  {
    forall i: nat :: i < |now| && py * w <= i < py * w + w ==> now[i] == was[i]
  }

  ghost predicate RowDone(now: seq<bv8>, was: seq<bv8>, src: seq<bv8>, g: Geometry, py: nat, fg: bv8, bg: bv8)
    requires |now| == |was| && g.x < g.xEnd && py >= g.y
  {
    forall i: nat :: i < |now| && py * g.w <= i < py * g.w + g.w ==>
      var d := DestStart(g, py);
      if d <= i <= d + LastWord(g.x, g.xEnd)
      then BlitWord(now[i], was[i], src, SourceStart(g, py), g.x, g.xEnd, g.srcX, i - d, fg, bg)
      else now[i] == was[i]
  }

  /** Of a layer the first n rows of the rectangle are done. */
  ghost predicate LayerDone(now: seq<bv8>, was: seq<bv8>, src: seq<bv8>, g: Geometry, fg: Pattern, bg: Pattern,
                            layer: nat, n: nat)
    requires g.x < g.xEnd && PatternOk(fg) && PatternOk(bg)
  {
    && |now| == |was|
    && forall py: nat :: py < g.h ==>
         if g.y <= py < g.y + n
         then RowDone(now, was, src, g, py, PatternWord(fg, py, layer), PatternWord(bg, py, layer))
         else RowSame(now, was, g.w, py)
  }

  /** What is written to one row leaves the other rows alone. */
  lemma OtherRow(before: seq<bv8>, now: seq<bv8>, w: nat, py: nat, d: nat, n: nat, i: nat, other: nat)
    requires |before| == |now| && py * w <= d && d + n < py * w + w
    requires forall k: nat :: k < |now| && (k < d || k > d + n) ==> now[k] == before[k]
    requires other != py && other * w <= i < other * w + w && i < |now|
    ensures now[i] == before[i]
  {
    if other < py { RowsApart(w, other, py); } else { RowsApart(w, py, other); }
  }

  /** The source pixels that are needed read alike. */
  ghost predicate NeededSame(read: seq<bv8>, src: seq<bv8>, s: nat, x: nat, xEnd: nat, srcX: nat)
    requires x < xEnd
  {
    && |read| == |src| && s + LastSource(x, xEnd, srcX) < |src|
    && forall q: nat :: srcX % 8 <= q < srcX % 8 + (xEnd - x) && s + q / 8 < |src| ==>
         StreamBit(read, s, q) == StreamBit(src, s, q)
  }

  /** Then the one serves as well as the other. */
  lemma BlitWordSource(b: bv8, was: bv8, read: seq<bv8>, src: seq<bv8>, s: nat, x: nat, xEnd: nat, srcX: nat, c: nat,
                       fg: bv8, bg: bv8)
    requires x < xEnd && BlitWord(b, was, read, s, x, xEnd, srcX, c, fg, bg) && NeededSame(read, src, s, x, xEnd, srcX)
    ensures BlitWord(b, was, src, s, x, xEnd, srcX, c, fg, bg)
  {
    hide StreamBit, Bit;
    forall i | 0 <= i < 8 && x <= PixelNumber(x, c, i) < xEnd
      ensures var q := SourceNumber(x, srcX, PixelNumber(x, c, i));
        s + q / 8 < |src| && StreamBit(read, s, q) == StreamBit(src, s, q)
    {
      var q := SourceNumber(x, srcX, PixelNumber(x, c, i));
      assert q / 8 <= LastSource(x, xEnd, srcX);
    }
  }

  /** One more row of a layer. */
  lemma NextRow(before: seq<bv8>, now: seq<bv8>, was: seq<bv8>, src: seq<bv8>, read: seq<bv8>, g: Geometry,
                fg: Pattern, bg: Pattern, layer: nat, n: nat)
    requires Inside(g) && PatternOk(fg) && PatternOk(bg) && g.y + n < g.yEnd
    requires |was| == g.w * g.h && |now| == |before| && |src| == g.sw * g.sh
    requires LayerDone(before, was, src, g, fg, bg, layer, n)
    requires var py := g.y + n; var d, last := DestStart(g, py), LastWord(g.x, g.xEnd);
      && (forall k: nat :: d <= k <= d + last && k < |now| ==>
            BlitWord(now[k], before[k], read, SourceStart(g, py), g.x, g.xEnd, g.srcX, k - d,
                     PatternWord(fg, py, layer), PatternWord(bg, py, layer)))
      && (forall k: nat :: k < |now| && (k < d || k > d + last) ==> now[k] == before[k])
    requires NeededSame(read, src, SourceStart(g, g.y + n), g.x, g.xEnd, g.srcX)
    ensures LayerDone(now, was, src, g, fg, bg, layer, n + 1)
  {
    hide BlitWord, PatternWord, LastSource, SourceStart, NeededSame;
    var py := g.y + n;
    var d, last := DestStart(g, py), LastWord(g.x, g.xEnd);
    SpanFits(g, py);
    forall p: nat | p < g.h
      ensures if g.y <= p < g.y + n + 1
              then RowDone(now, was, src, g, p, PatternWord(fg, p, layer), PatternWord(bg, p, layer))
              else RowSame(now, was, g.w, p)
    {
      if p != py {
        forall i: nat | i < |now| && p * g.w <= i < p * g.w + g.w ensures now[i] == before[i] {
          OtherRow(before, now, g.w, py, d, last, i, p);
        }
        if !(g.y <= p < g.y + n) { assert RowSame(before, was, g.w, p); }
      } else {
        assert RowSame(before, was, g.w, py);
        forall i: nat | i < |now| && py * g.w <= i < py * g.w + g.w && d <= i <= d + last
          ensures BlitWord(now[i], was[i], src, SourceStart(g, py), g.x, g.xEnd, g.srcX, i - d,
                           PatternWord(fg, py, layer), PatternWord(bg, py, layer))
        {
          BlitWordSource(now[i], before[i], read, src, SourceStart(g, py), g.x, g.xEnd, g.srcX, i - d,
                         PatternWord(fg, py, layer), PatternWord(bg, py, layer));
        }
      }
    }
  }

  /** The words of a span are in its row, and the row in its layer. */
  lemma SpanFits(g: Geometry, py: nat)
    requires Inside(g) && g.y <= py < g.yEnd
    ensures py * g.w <= DestStart(g, py) && DestStart(g, py) + LastWord(g.x, g.xEnd) < py * g.w + g.w <= g.w * g.h
    ensures var s := g.srcY + (py - g.y);
      && s < g.sh && s * g.sw <= SourceStart(g, py)
      && SourceStart(g, py) + LastSource(g.x, g.xEnd, g.srcX) < s * g.sw + g.sw <= g.sw * g.sh
  {
    var s := g.srcY + (py - g.y);
    RowsApart(g.w, py, g.h);
    RowsApart(g.sw, s, g.sh);
    Commutes(g.w, g.h);
    Commutes(g.sw, g.sh);
    LastWords(g);
    hide LastWord, LastSource;
  }

  lemma Commutes(m: nat, n: nat)
    ensures m * n == n * m
  {}

  lemma LastWords(g: Geometry)
    requires Inside(g)
    ensures g.x / 8 + LastWord(g.x, g.xEnd) < g.w
    ensures g.srcX / 8 + LastSource(g.x, g.xEnd, g.srcX) < g.sw
  {}

  // -------------------------------------------------- pixel by pixel

  /** The definition of a transfer, for one pixel of one layer. */
  predicate BlitPixel(was: seq<bv8>, src: seq<bv8>, g: Geometry, fg: Pattern, bg: Pattern, layer: nat, px: nat, py: nat)
    requires Inside(g) && PatternOk(fg) && PatternOk(bg) && |was| == g.w * g.h
    requires |src| == g.sw * g.sh && px < 8 * g.w && py < g.h
  {
    if g.x <= px < g.xEnd && g.y <= py < g.yEnd then
      if Pixel(src, g.sw, g.sh, g.srcX + (px - g.x), g.srcY + (py - g.y))
      then PatternPixel(fg, px, py, layer) else PatternPixel(bg, px, py, layer)
    else Pixel(was, g.w, g.h, px, py)
  }

  lemma SourceIndex(g: Geometry, px: nat, py: nat)
    requires Inside(g) && g.x <= px < g.xEnd && g.y <= py < g.yEnd
    ensures var q, sx, sy := SourceNumber(g.x, g.srcX, px), g.srcX + (px - g.x), g.srcY + (py - g.y);
      SourceStart(g, py) + q / 8 == sy * g.sw + sx / 8 && q % 8 == sx % 8
  {}

  /** The word and the bit of a pixel, within a span of its row. */
  lemma SpanIndex(g: Geometry, px: nat, py: nat)
    requires Inside(g) && px < 8 * g.w
    ensures var i, d := py * g.w + px / 8, DestStart(g, py);
      && (d <= i <= d + LastWord(g.x, g.xEnd) <==> g.x / 8 <= px / 8 <= (g.xEnd - 1) / 8)
      && (d <= i ==> PixelNumber(g.x, i - d, px % 8) == px)
    ensures g.x <= px < g.xEnd ==> g.x / 8 <= px / 8 <= (g.xEnd - 1) / 8
  {}

  /** A pixel of a word that is done. */
  lemma WordPixel(w: bv8, was: bv8, src: seq<bv8>, g: Geometry, c: nat, px: nat, py: nat, fg: bv8, bg: bv8)
    requires Inside(g) && |src| == g.sw * g.sh && px < 8 * g.w && g.y <= py < g.yEnd
    requires BlitWord(w, was, src, SourceStart(g, py), g.x, g.xEnd, g.srcX, c, fg, bg)
    requires PixelNumber(g.x, c, px % 8) == px
    ensures Bit(w, px % 8) ==
      if g.x <= px < g.xEnd then
        if Pixel(src, g.sw, g.sh, g.srcX + (px - g.x), g.srcY + (py - g.y)) then Bit(fg, px % 8) else Bit(bg, px % 8)
      else Bit(was, px % 8)
  {
    hide Bit, SourceStart, PixelNumber, SourceNumber;
    if g.x <= px < g.xEnd {
      SourceIndex(g, px, py);
      InLayer(g.sw, g.sh, g.srcX + (px - g.x), g.srcY + (py - g.y));
    }
  }

  /** The word of a pixel, once its layer is done. */
  lemma DoneWord(now: seq<bv8>, was: seq<bv8>, src: seq<bv8>, g: Geometry, fg: Pattern, bg: Pattern, layer: nat,
                 i: nat, py: nat)
    requires Inside(g) && PatternOk(fg) && PatternOk(bg) && |was| == g.w * g.h
    requires LayerDone(now, was, src, g, fg, bg, layer, g.yEnd - g.y) && py < g.h
    requires i < |now| && py * g.w <= i < py * g.w + g.w
    ensures var d := DestStart(g, py);
      if g.y <= py < g.yEnd && d <= i <= d + LastWord(g.x, g.xEnd)
      then BlitWord(now[i], was[i], src, SourceStart(g, py), g.x, g.xEnd, g.srcX, i - d,
                    PatternWord(fg, py, layer), PatternWord(bg, py, layer))
      else now[i] == was[i]
  {
    hide PatternWord, LastWord, SourceStart, DestStart, BlitWord;
    if g.y <= py < g.yEnd {
      assert RowDone(now, was, src, g, py, PatternWord(fg, py, layer), PatternWord(bg, py, layer));
    } else {
      assert RowSame(now, was, g.w, py);
    }
  }

  lemma PixelIs(ws: seq<bv8>, w: nat, h: nat, px: nat, py: nat)
    requires |ws| == w * h && px < 8 * w && py < h
    ensures var i := py * w + px / 8;
      i < |ws| && py * w <= i < py * w + w && Pixel(ws, w, h, px, py) == Bit(ws[i], px % 8)
  {
    InLayer(w, h, px, py);
  }

  /** A pixel in a word that the transfer writes. */
  lemma WrittenPixel(now: seq<bv8>, was: seq<bv8>, src: seq<bv8>, g: Geometry, fg: Pattern, bg: Pattern, layer: nat,
                     px: nat, py: nat)
    requires Inside(g) && PatternOk(fg) && PatternOk(bg) && |now| == |was| == g.w * g.h && |src| == g.sw * g.sh
    requires px < 8 * g.w && g.y <= py < g.yEnd && g.x / 8 <= px / 8 && py * g.w + px / 8 < |now|
    requires var i, d := py * g.w + px / 8, DestStart(g, py);
      i >= d && BlitWord(now[i], was[i], src, SourceStart(g, py), g.x, g.xEnd, g.srcX, i - d,
                         PatternWord(fg, py, layer), PatternWord(bg, py, layer))
    ensures Pixel(now, g.w, g.h, px, py) == BlitPixel(was, src, g, fg, bg, layer, px, py)
  {
    hide Bit, PatternWord, PatternPixel, PatternOk, SourceStart, DestStart, BlitWord, PixelNumber, Pixel;
    WordOfPattern(fg, px, py, layer);
    WordOfPattern(bg, px, py, layer);
    PixelIs(now, g.w, g.h, px, py);
    PixelIs(was, g.w, g.h, px, py);
    SpanIndex(g, px, py);
    var i, d := py * g.w + px / 8, DestStart(g, py);
    WordPixel(now[i], was[i], src, g, i - d, px, py, PatternWord(fg, py, layer), PatternWord(bg, py, layer));
  }

  /** A pixel in a word that the transfer leaves alone. */
  lemma UntouchedPixel(now: seq<bv8>, was: seq<bv8>, src: seq<bv8>, g: Geometry, fg: Pattern, bg: Pattern, layer: nat,
                       px: nat, py: nat)
    requires Inside(g) && PatternOk(fg) && PatternOk(bg) && |now| == |was| == g.w * g.h && |src| == g.sw * g.sh
    requires px < 8 * g.w && py < g.h && py * g.w + px / 8 < |now|
    requires var i, d := py * g.w + px / 8, DestStart(g, py);
      now[i] == was[i] && !(g.y <= py < g.yEnd && d <= i <= d + LastWord(g.x, g.xEnd))
    ensures Pixel(now, g.w, g.h, px, py) == BlitPixel(was, src, g, fg, bg, layer, px, py)
  {
    hide Bit, PatternPixel, PatternOk, LastWord, Pixel, DestStart;
    PixelIs(now, g.w, g.h, px, py);
    PixelIs(was, g.w, g.h, px, py);
    SpanIndex(g, px, py);
  }

  lemma DonePixel(now: seq<bv8>, was: seq<bv8>, src: seq<bv8>, g: Geometry, fg: Pattern, bg: Pattern, layer: nat,
                  px: nat, py: nat)
    requires Inside(g) && PatternOk(fg) && PatternOk(bg) && |was| == g.w * g.h && |src| == g.sw * g.sh
    requires LayerDone(now, was, src, g, fg, bg, layer, g.yEnd - g.y) && px < 8 * g.w && py < g.h
    ensures |now| == g.w * g.h && Pixel(now, g.w, g.h, px, py) == BlitPixel(was, src, g, fg, bg, layer, px, py)
  {
    hide *;
    LayerSize(now, was, src, g, fg, bg, layer);
    PixelIs(now, g.w, g.h, px, py);
    SpanIndex(g, px, py);
    var i, d := py * g.w + px / 8, DestStart(g, py);
    DoneWord(now, was, src, g, fg, bg, layer, i, py);
    if g.y <= py < g.yEnd && d <= i <= d + LastWord(g.x, g.xEnd) {
      WrittenPixel(now, was, src, g, fg, bg, layer, px, py);
    } else {
      UntouchedPixel(now, was, src, g, fg, bg, layer, px, py);
    }
  }

  lemma LayerSize(now: seq<bv8>, was: seq<bv8>, src: seq<bv8>, g: Geometry, fg: Pattern, bg: Pattern, layer: nat)
    requires Inside(g) && PatternOk(fg) && PatternOk(bg) && LayerDone(now, was, src, g, fg, bg, layer, g.yEnd - g.y)
    ensures |now| == |was| && g.x < g.xEnd && g.y < g.yEnd
  {}
}

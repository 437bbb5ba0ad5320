/** Bitmaps in memory, and the routines that change rectangles of them. */
module RawBitmap {
  import opened BitmapWords
  import opened BitmapRows
  import opened BitmapLoops
  import opened BitmapRects
  import opened BitmapOverlap
  import opened BitmapColors

  /** The definition of an inversion, for one pixel. */
  predicate InvertPixel(was: seq<bv8>, w: nat, h: nat, x: nat, y: nat, xEnd: nat, yEnd: nat, px: nat, py: nat)
    requires |was| == w * h && px < 8 * w && py < h
  {
    if x <= px < xEnd && y <= py < yEnd then !Pixel(was, w, h, px, py) else Pixel(was, w, h, px, py)
  }

  /** A transfer onto itself with black for the set pixels and white for the others
      is an inversion. */
  lemma SelfTransferInverts(was: seq<bv8>, g: Geometry, layer: nat, px: nat, py: nat)
    requires Inside(g) && g == Geometry(g.w, g.h, g.x, g.y, g.xEnd, g.yEnd, g.w, g.h, g.x, g.y)
    requires |was| == g.w * g.h && px < 8 * g.w && py < g.h
    ensures PatternOk(BLACK) && PatternOk(WHITE)
    ensures BlitPixel(was, was, g, BLACK, WHITE, layer, px, py) ==
      InvertPixel(was, g.w, g.h, g.x, g.y, g.xEnd, g.yEnd, px, py)
  {
    BlackAndWhite(px, py, layer);
    hide PatternPixel, Pixel, Bit;
  }

  lemma NothingInverted(was: seq<bv8>, w: nat, h: nat, x: nat, y: nat, xEnd: nat, yEnd: nat, px: nat, py: nat)
    requires |was| == w * h && px < 8 * w && py < h && !(x < xEnd && y < yEnd)
    ensures InvertPixel(was, w, h, x, y, xEnd, yEnd, px, py) == Pixel(was, w, h, px, py)
  {}

  /** The pixels determine the words. */
  lemma SamePixelsSameWords(v: seq<bv8>, u: seq<bv8>, w: nat, h: nat)
    requires |v| == |u| == w * h
    requires forall px: nat, py: nat :: px < 8 * w && py < h ==> Pixel(v, w, h, px, py) == Pixel(u, w, h, px, py)
    ensures v == u
  {
    hide Bit;
    forall k: nat | k < |v| ensures v[k] == u[k] {
      var py, c := RowOf(k, w, h);
      forall i | 0 <= i < 8 ensures Bit(v[k], i) == Bit(u[k], i) {
        InLayer(w, h, 8 * c + i, py);
        assert Pixel(v, w, h, 8 * c + i, py) == Pixel(u, w, h, 8 * c + i, py);
      }
      SameBits(v[k], u[k]);
    }
  }

  lemma {:induction false} RowOf(k: nat, w: nat, h: nat) returns (py: nat, c: nat)
    requires k < w * h
    ensures py < h && c < w && k == py * w + c
    decreases h
  {
    if k < w {
      py, c := 0, k;
    } else {
      assert w * h == w + w * (h - 1);
      py, c := RowOf(k - w, w, h - 1);
      assert (py + 1) * w == py * w + w;
      py := py + 1;
    }
  }

  lemma SameBits(v: bv8, u: bv8)
    requires forall i :: 0 <= i < 8 ==> Bit(v, i) == Bit(u, i)
    ensures v == u
  {
    assert Bit(v, 0) == Bit(u, 0) && Bit(v, 1) == Bit(u, 1) && Bit(v, 2) == Bit(u, 2) && Bit(v, 3) == Bit(u, 3);
    assert Bit(v, 4) == Bit(u, 4) && Bit(v, 5) == Bit(u, 5) && Bit(v, 6) == Bit(u, 6) && Bit(v, 7) == Bit(u, 7);
  }

  lemma SameIsNeeded(src: seq<bv8>, s: nat, x: nat, xEnd: nat, srcX: nat)
    requires x < xEnd && s + LastSource(x, xEnd, srcX) < |src|
    ensures NeededSame(src, src, s, x, xEnd, srcX)
  {}

  /** Filling is a transfer in which foreground and background are the same. */
  lemma FillIsBlit(w: bv8, was: bv8, src: seq<bv8>, s: nat, x: nat, xEnd: nat, c: nat, fg: bv8)
    requires x < xEnd && FillWord(w, was, x, xEnd, c, fg) && s + LastSource(x, xEnd, x) < |src|
    ensures BlitWord(w, was, src, s, x, xEnd, x, c, fg, fg)
  {
    hide Bit;
    forall i | 0 <= i < 8 && x <= PixelNumber(x, c, i) < xEnd
      ensures s + SourceNumber(x, x, PixelNumber(x, c, i)) / 8 < |src|
    {
      assert SourceNumber(x, x, PixelNumber(x, c, i)) / 8 <= LastSource(x, xEnd, x);
    }
  }

  /** Where the condition fails: three words of a row moved two words to the right. The
      third is overwritten before it is read, and the first comes out twice. */
  method SmearedRow(row: array<bv8>, junk: bv8)
    requires row.Length == 5
    modifies row
    ensures !RowsInTime(Geometry(5, 1, 16, 0, 40, 1, 5, 1, 0, 0))
    ensures row[..] == old([row[0], row[1], row[0], row[1], row[0]])
  {
    ghost var was := row[..];
    ghost var seen := BlitRow(row, 2, row, 0, 16, 40, 0, 0xFF, 0x00, junk);
    assert SeenAt(seen, was, row[..], true, 2, 0, 0) && SeenAt(seen, was, row[..], true, 2, 0, 1);
    assert SeenAt(seen, was, row[..], true, 2, 0, 2);
    CopiedWord(row[2], was[2], seen, 0);
    CopiedWord(row[3], was[3], seen, 1);
    CopiedWord(row[4], was[4], seen, 2);
  }

  lemma CopiedWord(w: bv8, was: bv8, seen: seq<bv8>, c: nat)
    requires c < 3 <= |seen| && BlitWord(w, was, seen, 0, 16, 40, 0, c, 0xFF, 0x00)
    ensures w == seen[c]
  {
    hide Bit, BlitWord;
    forall i | 0 <= i < 8 ensures Bit(w, i) == Bit(seen[c], i) { CopiedBit(w, was, seen, c, i); }
    SameBits(w, seen[c]);
  }

  lemma CopiedBit(w: bv8, was: bv8, seen: seq<bv8>, c: nat, i: nat)
    requires c < 3 <= |seen| && i < 8 && BlitWord(w, was, seen, 0, 16, 40, 0, c, 0xFF, 0x00)
    ensures Bit(w, i) == Bit(seen[c], i)
  {
    hide Bit, BlitWord;
    NoneAndAll(i);
    ShownPixel(w, was, seen, 0, 16, 40, 0, c, i, 0xFF, 0x00);
    var q := SourceNumber(16, 0, PixelNumber(16, c, i));
    assert q / 8 == c && q % 8 == i;
  }

  lemma ShownPixel(w: bv8, was: bv8, src: seq<bv8>, s: nat, x: nat, xEnd: nat, srcX: nat, c: nat, i: nat, fg: bv8,
                   bg: bv8)
    requires BlitWord(w, was, src, s, x, xEnd, srcX, c, fg, bg) && i < 8 && x <= PixelNumber(x, c, i) < xEnd
    ensures var q := SourceNumber(x, srcX, PixelNumber(x, c, i));
      s + q / 8 < |src| ==> Bit(w, i) == if StreamBit(src, s, q) then Bit(fg, i) else Bit(bg, i)
  {
    hide Bit, StreamBit;
  }

  /** raw_bitmap: one array of words for each layer. */
  class RawBitmap {
    const width: nat
    const height: nat
    const layers: seq<array<bv8>>

    ghost predicate Valid()
    {
      && width % 8 == 0 && layers != []
      && (forall k :: 0 <= k < |layers| ==> layers[k].Length == (width / 8) * height)
      && (forall j, k :: 0 <= j < k < |layers| ==> layers[j] != layers[k])
    }

    /** _select_layer */
    function SelectLayer(layer: nat): array<bv8>
      requires layers != []
    {
      layers[layer % |layers|]
    }

    /** Row y + n of layer l. */
    method BlitLayerRow(l: nat, n: nat, src: array<bv8>, g: Geometry, fg: Pattern, bg: Pattern, junk: bv8,
                        ghost was: seq<bv8>, ghost srcWas: seq<bv8>)
      requires Valid() && l < |layers| && Inside(g) && PatternOk(fg) && PatternOk(bg) && g.y + n < g.yEnd
      requires g.w == width / 8 && g.h == height && src.Length == g.sw * g.sh == |srcWas| && |was| == g.w * g.h
      requires LayerDone(layers[l][..], was, srcWas, g, fg, bg, l, n)
      requires if src == layers[l] then srcWas == was && g.sw == g.w && g.sh == g.h && RowsInTime(g)
               else src[..] == srcWas
      modifies layers[l]
      ensures LayerDone(layers[l][..], was, srcWas, g, fg, bg, l, n + 1)
    {
      hide LayerDone, PatternWord, BlitWord, LastWord, LastSource, RowsInTime, Seen, NeededSame;
      ghost var before, read := layers[l][..], src[..];
      var py := g.y + n;
      var fgw, bgw := PatternWord(fg, py, l), PatternWord(bg, py, l);
      SpanFits(g, py);
      InLayer(g.w, g.h, g.x, py);
      InLayer(g.sw, g.sh, g.srcX, g.srcY + n);
      var d, s := (py * width + g.x) / 8, ((g.srcY + n) * (8 * g.sw) + g.srcX) / 8;
      ghost var seen := BlitRow(layers[l], d, src, s, g.x, g.xEnd, g.srcX, fgw, bgw, junk);
      if src == layers[l] {
        SeenIsRight(before, layers[l][..], was, seen, g, fg, bg, l, n);
      } else {
        ApartIsRight(seen, read, layers[l][..], d, s, g.x, g.xEnd, g.srcX);
      }
      NextRow(before, layers[l][..], was, srcWas, seen, g, fg, bg, l, n);
    }

    /** The geometry of a transfer from src. */
    function Transfer(x: nat, y: nat, xEnd: nat, yEnd: nat, src: RawBitmap, srcX: nat, srcY: nat): Geometry
    {
      Geometry(width / 8, height, x, y, xEnd, yEnd, src.width / 8, src.height, srcX, srcY)
    }

    ghost predicate Apart(src: RawBitmap)
    {
      forall j, k :: 0 <= j < |layers| && 0 <= k < |src.layers| ==> layers[j] != src.layers[k]
    }

    /** The first n rows of the transfer are done in every layer from l on, and one
        row fewer in the others. */
    ghost predicate Progress(was: seq<seq<bv8>>, srcWas: seq<seq<bv8>>, g: Geometry, fg: Pattern, bg: Pattern, n: nat,
                             l: nat)
      requires g.x < g.xEnd && PatternOk(fg) && PatternOk(bg) && |was| == |srcWas| == |layers| && n > 0
      reads layers
    {
      forall k: nat :: k < |layers| ==>
        LayerDone(layers[k][..], was[k], srcWas[k], g, fg, bg, k, if k >= l then n else n - 1)
    }

    /** raw_bitmap_bitblt: every pixel of the rectangle shows the foreground where
        its source pixel is set and the background elsewhere; no other changes. */
    method BitBlt(x: nat, y: nat, xEnd: nat, yEnd: nat, src: RawBitmap, srcX: nat, srcY: nat, fg: Pattern,
                  bg: Pattern, junk: bv8)
      requires Valid() && src.Valid() && PatternOk(fg) && PatternOk(bg)
      requires src == this || Apart(src)
      requires x < xEnd && y < yEnd ==>
        var g := Transfer(x, y, xEnd, yEnd, src, srcX, srcY); Inside(g) && (src == this ==> RowsInTime(g))
      modifies layers
      ensures x < xEnd && y < yEnd ==>
        forall l: nat, px: nat, py: nat :: l < |layers| && px < width && py < height ==>
          Pixel(layers[l][..], width / 8, height, px, py) ==
          BlitPixel(old(layers[l][..]), old(src.layers[l % |src.layers|][..]),
                    Transfer(x, y, xEnd, yEnd, src, srcX, srcY), fg, bg, l, px, py)
      ensures !(x < xEnd && y < yEnd) ==> forall l: nat :: l < |layers| ==> layers[l][..] == old(layers[l][..])
    {
      if x < xEnd && y < yEnd {
        hide LayerDone, BlitPixel, Pixel, Ready, RowsInTime, Inside, PatternOk;
        var g := Transfer(x, y, xEnd, yEnd, src, srcX, srcY);
        ghost var was := seq(|layers|, k requires 0 <= k < |layers| => old(layers[k][..]));
        ghost var srcWas := seq(|layers|, k requires 0 <= k < |layers| => old(src.SelectLayer(k)[..]));
        GetReady(src, g, fg, bg, was, srcWas);
        BlitRows(src, g, fg, bg, junk, was, srcWas);
        forall l: nat, px: nat, py: nat | l < |layers| && px < width && py < height
          ensures Pixel(layers[l][..], width / 8, height, px, py) ==
            BlitPixel(old(layers[l][..]), old(src.layers[l % |src.layers|][..]), g, fg, bg, l, px, py)
        {
          DonePixel(layers[l][..], was[l], srcWas[l], g, fg, bg, l, px, py);
        }
      }
    }

    lemma GetReady(src: RawBitmap, g: Geometry, fg: Pattern, bg: Pattern, was: seq<seq<bv8>>, srcWas: seq<seq<bv8>>)
      requires Valid() && src.Valid() && PatternOk(fg) && PatternOk(bg) && Inside(g)
      requires g == Transfer(g.x, g.y, g.xEnd, g.yEnd, src, g.srcX, g.srcY)
      requires if src == this then RowsInTime(g) else Apart(src)
      requires |was| == |layers| == |srcWas|
      requires forall l: nat :: l < |layers| ==> was[l] == layers[l][..] && srcWas[l] == src.SelectLayer(l)[..]
      ensures Ready(src, g, fg, bg, was, srcWas)
      ensures forall l: nat :: l < |layers| ==> |was[l]| == g.w * g.h && |srcWas[l]| == g.sw * g.sh
    {
      hide Inside, RowsInTime, PatternOk;
      forall l: nat | l < |layers|
        ensures |was[l]| == g.w * g.h && |srcWas[l]| == g.sw * g.sh && (src == this ==> srcWas[l] == was[l])
      {
        SelectedLayer(src, l);
      }
    }

    lemma SelectedLayer(src: RawBitmap, l: nat)
      requires src.Valid()
      ensures src.SelectLayer(l).Length == (src.width / 8) * src.height
      ensures l < |src.layers| ==> src.SelectLayer(l) == src.layers[l]
    {
      var k := l % |src.layers|;
      assert l < |src.layers| ==> k == l;
    }

    /** The transfer is well placed, and was and srcWas are what it started from. */
    ghost predicate Ready(src: RawBitmap, g: Geometry, fg: Pattern, bg: Pattern, was: seq<seq<bv8>>,
                          srcWas: seq<seq<bv8>>)
      reads src.layers
    {
      && Valid() && src.Valid() && PatternOk(fg) && PatternOk(bg) && Inside(g)
      && g == Transfer(g.x, g.y, g.xEnd, g.yEnd, src, g.srcX, g.srcY)
      && |was| == |layers| == |srcWas|
      && (forall l: nat :: l < |layers| ==> |was[l]| == g.w * g.h && |srcWas[l]| == g.sw * g.sh)
      && if src == this then RowsInTime(g) && srcWas == was
         else Apart(src) && forall l: nat :: l < |layers| ==> srcWas[l] == src.SelectLayer(l)[..]
    }

    method BlitRows(src: RawBitmap, g: Geometry, fg: Pattern, bg: Pattern, junk: bv8, ghost was: seq<seq<bv8>>,
                    ghost srcWas: seq<seq<bv8>>)
      requires Ready(src, g, fg, bg, was, srcWas) && forall l: nat :: l < |layers| ==> was[l] == layers[l][..]
      modifies layers
      ensures forall l: nat :: l < |layers| ==> LayerDone(layers[l][..], was[l], srcWas[l], g, fg, bg, l, g.yEnd - g.y)
    {
      var n: nat := 0;
      NothingDone(g, fg, bg, was, srcWas);
      ReadyFacts(src, g, fg, bg, was, srcWas);
      hide PatternOk, RowsInTime, Ready;
      while n < g.yEnd - g.y
        invariant n <= g.yEnd - g.y
        invariant Ready(src, g, fg, bg, was, srcWas) && Progress(was, srcWas, g, fg, bg, n + 1, |layers|)
      {
        BlitOneRow(src, g, fg, bg, junk, n, was, srcWas);
        n := n + 1;
      }
    }

    lemma ReadyFacts(src: RawBitmap, g: Geometry, fg: Pattern, bg: Pattern, was: seq<seq<bv8>>, srcWas: seq<seq<bv8>>)
      requires Ready(src, g, fg, bg, was, srcWas)
      ensures g.x < g.xEnd && g.y < g.yEnd && PatternOk(fg) && PatternOk(bg) && |was| == |srcWas| == |layers|
    {}

    lemma NothingDone(g: Geometry, fg: Pattern, bg: Pattern, was: seq<seq<bv8>>, srcWas: seq<seq<bv8>>)
      requires g.x < g.xEnd && PatternOk(fg) && PatternOk(bg) && |was| == |srcWas| == |layers|
      requires forall l: nat :: l < |layers| ==> was[l] == layers[l][..]
      ensures Progress(was, srcWas, g, fg, bg, 1, |layers|)
    {}

    /** The loop over the layers, from the last to the first. */
    method BlitOneRow(src: RawBitmap, g: Geometry, fg: Pattern, bg: Pattern, junk: bv8, n: nat,
                      ghost was: seq<seq<bv8>>, ghost srcWas: seq<seq<bv8>>)
      requires Ready(src, g, fg, bg, was, srcWas) && g.y + n < g.yEnd
      requires Progress(was, srcWas, g, fg, bg, n + 1, |layers|)
      modifies layers
      ensures Ready(src, g, fg, bg, was, srcWas) && Progress(was, srcWas, g, fg, bg, n + 2, |layers|)
    {
      ReadyFacts(src, g, fg, bg, was, srcWas);
      hide PatternOk, RowsInTime, LayerDone, Ready;
      var l: nat := |layers|;
      while l > 0
        invariant l <= |layers|
        invariant Ready(src, g, fg, bg, was, srcWas) && Progress(was, srcWas, g, fg, bg, n + 1, l)
      {
        l := l - 1;
        BlitLayer(l, src, g, fg, bg, junk, n, was, srcWas);
      }
    }

    method BlitLayer(l: nat, src: RawBitmap, g: Geometry, fg: Pattern, bg: Pattern, junk: bv8, n: nat,
                     ghost was: seq<seq<bv8>>, ghost srcWas: seq<seq<bv8>>)
      requires Ready(src, g, fg, bg, was, srcWas) && g.y + n < g.yEnd && l < |layers|
      requires Progress(was, srcWas, g, fg, bg, n + 1, l + 1)
      modifies layers
      ensures Ready(src, g, fg, bg, was, srcWas) && Progress(was, srcWas, g, fg, bg, n + 1, l)
    {
      hide PatternOk, Inside, RowsInTime, LayerDone;
      LayerReady(l, src, g, fg, bg, was, srcWas);
      ghost var before := LayerContents();
      BlitLayerRow(l, n, src.SelectLayer(l), g, fg, bg, junk, was[l], srcWas[l]);
      assert forall k: nat :: k < |layers| && k != l ==> layers[k] != layers[l] && layers[k][..] == before[k];
    }

    ghost function LayerContents(): (r: seq<seq<bv8>>)
      reads layers
      ensures |r| == |layers| && forall k: nat :: k < |layers| ==> r[k] == layers[k][..]
    {
      seq(|layers|, k requires 0 <= k < |layers| reads layers => layers[k][..])
    }

    lemma LayerReady(l: nat, src: RawBitmap, g: Geometry, fg: Pattern, bg: Pattern, was: seq<seq<bv8>>,
                     srcWas: seq<seq<bv8>>)
      requires Ready(src, g, fg, bg, was, srcWas) && l < |layers|
      ensures src.layers != [] && |was| == |srcWas| == |layers|
      ensures src.SelectLayer(l).Length == g.sw * g.sh == |srcWas[l]| && |was[l]| == g.w * g.h
      ensures src == this ==> src.SelectLayer(l) == layers[l] && srcWas[l] == was[l]
      ensures src != this ==> (forall k: nat :: src.SelectLayer(k) != layers[l]) && src.SelectLayer(l)[..] == srcWas[l]
    {
      hide Inside, RowsInTime, PatternOk;
      SelectedLayer(src, l);
    }

    /** raw_bitmap_invert_rect */
    method InvertRect(x: nat, y: nat, xEnd: nat, yEnd: nat, junk: bv8)
      requires Valid() && (x < xEnd && y < yEnd ==> xEnd <= width && yEnd <= height)
      modifies layers
      ensures forall l: nat, px: nat, py: nat :: l < |layers| && px < width && py < height ==>
        var was := Pixel(old(layers[l][..]), width / 8, height, px, py);
        Pixel(layers[l][..], width / 8, height, px, py) == if x <= px < xEnd && y <= py < yEnd then !was else was
    {
      hide BlitPixel, Pixel, BLACK, WHITE;
      ghost var g := Transfer(x, y, xEnd, yEnd, this, x, y);
      BlackAndWhite(0, 0, 0);
      BitBlt(x, y, xEnd, yEnd, this, x, y, BLACK, WHITE, junk);
      forall l: nat, px: nat, py: nat | l < |layers| && px < width && py < height
        ensures Pixel(layers[l][..], width / 8, height, px, py) ==
          InvertPixel(old(layers[l][..]), width / 8, height, x, y, xEnd, yEnd, px, py)
      {
        SelectedLayer(this, l);
        if x < xEnd && y < yEnd {
          SelfTransferInverts(old(layers[l][..]), g, l, px, py);
        } else {
          NothingInverted(old(layers[l][..]), width / 8, height, x, y, xEnd, yEnd, px, py);
        }
      }
    }

    /** Inverting a rectangle twice leaves the bitmap as it was. */
    method InvertTwice(x: nat, y: nat, xEnd: nat, yEnd: nat, junk: bv8)
      requires Valid() && (x < xEnd && y < yEnd ==> xEnd <= width && yEnd <= height)
      modifies layers
      ensures forall l: nat :: l < |layers| ==> layers[l][..] == old(layers[l][..])
    {
      InvertRect(x, y, xEnd, yEnd, junk);
      InvertRect(x, y, xEnd, yEnd, junk);
      hide Pixel;
      forall l: nat | l < |layers| ensures layers[l][..] == old(layers[l][..]) {
        SamePixelsSameWords(layers[l][..], old(layers[l][..]), width / 8, height);
      }
    }

    /** One row of one layer is filled. */
    method FillLayerRow(l: nat, n: nat, g: Geometry, fg: Pattern, ghost was: seq<bv8>)
      requires Valid() && l < |layers| && Inside(g) && PatternOk(fg) && g.y + n < g.yEnd
      requires g.w == width / 8 && g.h == height && |was| == g.w * g.h
      requires g.sw == g.w && g.sh == g.h && g.srcX == g.x && g.srcY == g.y
      requires LayerDone(layers[l][..], was, was, g, fg, fg, l, n)
      modifies layers[l]
      ensures LayerDone(layers[l][..], was, was, g, fg, fg, l, n + 1)
    {
      hide LayerDone, PatternWord, BlitWord, FillWord, LastWord, LastSource, NeededSame;
      ghost var before := layers[l][..];
      var py := g.y + n;
      var fgw := PatternWord(fg, py, l);
      SpanFits(g, py);
      InLayer(g.w, g.h, g.x, py);
      var d := (py * width + g.x) / 8;
      FillRow(layers[l], d, g.x, g.xEnd, fgw);
      forall k: nat | d <= k <= d + LastWord(g.x, g.xEnd) && k < layers[l].Length
        ensures BlitWord(layers[l][..][k], before[k], was, SourceStart(g, py), g.x, g.xEnd, g.x, k - d, fgw, fgw)
      {
        FillIsBlit(layers[l][..][k], before[k], was, SourceStart(g, py), g.x, g.xEnd, k - d, fgw);
      }
      SameIsNeeded(was, SourceStart(g, py), g.x, g.xEnd, g.x);
      NextRow(before, layers[l][..], was, was, was, g, fg, fg, l, n);
    }

    /** The geometry of a fill, as a transfer onto itself. */
    function Filling(x: nat, y: nat, xEnd: nat, yEnd: nat): Geometry
    {
      Geometry(width / 8, height, x, y, xEnd, yEnd, width / 8, height, x, y)
    }

    /** raw_bitmap_fill_rect: every pixel of the rectangle shows the pattern, and no
        other changes. */
    method FillRect(x: nat, y: nat, xEnd: nat, yEnd: nat, fg: Pattern)
      requires Valid() && PatternOk(fg) && (x < xEnd && y < yEnd ==> xEnd <= width && yEnd <= height)
      modifies layers
      ensures x < xEnd && y < yEnd ==>
        forall l: nat, px: nat, py: nat :: l < |layers| && px < width && py < height ==>
          Pixel(layers[l][..], width / 8, height, px, py) ==
          if x <= px < xEnd && y <= py < yEnd then PatternPixel(fg, px, py, l)
          else Pixel(old(layers[l][..]), width / 8, height, px, py)
      ensures !(x < xEnd && y < yEnd) ==> forall l: nat :: l < |layers| ==> layers[l][..] == old(layers[l][..])
    {
      if x < xEnd && y < yEnd {
        hide LayerDone, Pixel, Bit, PatternWord, PatternOk, Inside;
        var g := Filling(x, y, xEnd, yEnd);
        IsInside(g);
        ghost var was := seq(|layers|, k requires 0 <= k < |layers| => old(layers[k][..]));
        var n: nat := 0;
        NothingDone(g, fg, fg, was, was);
        while n < yEnd - y
          invariant n <= yEnd - y && Progress(was, was, g, fg, fg, n + 1, |layers|)
        {
          FillOneRow(g, fg, n, was);
          n := n + 1;
        }
        forall l: nat, px: nat, py: nat | l < |layers| && px < width && py < height
          ensures Pixel(layers[l][..], width / 8, height, px, py) ==
            if x <= px < xEnd && y <= py < yEnd then PatternPixel(fg, px, py, l)
            else Pixel(old(layers[l][..]), width / 8, height, px, py)
        {
          DonePixel(layers[l][..], was[l], was[l], g, fg, fg, l, px, py);
        }
      }
    }

    lemma IsInside(g: Geometry)
      requires Valid() && g == Filling(g.x, g.y, g.xEnd, g.yEnd) && g.x < g.xEnd <= width && g.y < g.yEnd <= height
      ensures Inside(g)
    {}

    method FillOneRow(g: Geometry, fg: Pattern, n: nat, ghost was: seq<seq<bv8>>)
      requires Valid() && PatternOk(fg) && Inside(g) && g == Filling(g.x, g.y, g.xEnd, g.yEnd) && g.y + n < g.yEnd
      requires |was| == |layers| && (forall l: nat :: l < |layers| ==> |was[l]| == g.w * g.h)
      requires Progress(was, was, g, fg, fg, n + 1, |layers|)
      modifies layers
      ensures Progress(was, was, g, fg, fg, n + 2, |layers|)
    {
      hide PatternOk, LayerDone;
      var l: nat := |layers|;
      while l > 0
        invariant l <= |layers| && Progress(was, was, g, fg, fg, n + 1, l)
      {
        l := l - 1;
        FillLayerRow(l, n, g, fg, was[l]);
      }
    }
 
    /** term_color_to_pattern and raw_bitmap_fill_rect, on a screen of four layers: every
        pixel of the rectangle shows exactly the primaries of the colour. */
    method FillWithColor(x: nat, y: nat, xEnd: nat, yEnd: nat, color: int)
      requires Valid() && |layers| == 4 && x < xEnd <= width && y < yEnd <= height && 0 <= color <= 7
      modifies layers
      ensures forall px: nat, py: nat :: px < width && py < height ==>
        var blue := Pixel(layers[0][..], width / 8, height, px, py);
        var green := Pixel(layers[1][..], width / 8, height, px, py);
        var red := Pixel(layers[2][..], width / 8, height, px, py);
        var bright := Pixel(layers[3][..], width / 8, height, px, py);
        if x <= px < xEnd && y <= py < yEnd
        then && color == (if red then 1 else 0) + (if green then 2 else 0) + (if blue then 4 else 0)
             && (bright <==> color != 0)
        else && blue == Pixel(old(layers[0][..]), width / 8, height, px, py)
             && green == Pixel(old(layers[1][..]), width / 8, height, px, py)
             && red == Pixel(old(layers[2][..]), width / 8, height, px, py)
             && bright == Pixel(old(layers[3][..]), width / 8, height, px, py)
    {
      hide Pixel, PatternPixel, PatternOk, ColorToPattern;
      ColorsAreTheirPrimaries(color, 0, 0, 0);
      FillRect(x, y, xEnd, yEnd, ColorToPattern(color));
      forall px: nat, py: nat | px < width && py < height && x <= px < xEnd && y <= py < yEnd
        ensures Pixel(layers[0][..], width / 8, height, px, py) <==> color >= 4
        ensures Pixel(layers[1][..], width / 8, height, px, py) <==> color / 2 % 2 == 1
        ensures Pixel(layers[2][..], width / 8, height, px, py) <==> color % 2 == 1
        ensures Pixel(layers[3][..], width / 8, height, px, py) <==> color != 0
      {
        ColorsAreTheirPrimaries(color, px, py, 0);
        ColorsAreTheirPrimaries(color, px, py, 1);
        ColorsAreTheirPrimaries(color, px, py, 2);
        ColorsAreTheirPrimaries(color, px, py, 3);
      }
    }
  }
}

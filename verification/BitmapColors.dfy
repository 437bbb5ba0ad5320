/** The patterns of video.cpp and the colours they show. A pixel's colour is a number
    whose i-th bit is in layer i: blue, green, red and intensity on the screen. */
module BitmapColors {
  import opened BitmapWords
  import opened BitmapRects

  const NONE: seq<bv8> := [0x00, 0x00, 0x00, 0x00, 0x00, 0x00, 0x00, 0x00]
  const ALL: seq<bv8> := [0xFF, 0xFF, 0xFF, 0xFF, 0xFF, 0xFF, 0xFF, 0xFF]

  const BLACK: Pattern := Pattern(NONE, 8, 1)
  const GRAY25: Pattern := Pattern([0x00, 0x55, 0x00, 0x55, 0x00, 0x55, 0x00, 0x55], 8, 1)
  const GRAY50: Pattern := Pattern([0xAA, 0x55, 0xAA, 0x55, 0xAA, 0x55, 0xAA, 0x55], 8, 1)
  const GRAY75: Pattern := Pattern([0xFF, 0x55, 0xFF, 0x55, 0xFF, 0x55, 0xFF, 0x55], 8, 1)
  const WHITE: Pattern := Pattern(ALL, 8, 1)
  const RED: Pattern := Pattern(NONE + NONE + ALL + ALL, 8, 4)
  const GREEN: Pattern := Pattern(NONE + ALL + NONE + ALL, 8, 4)
  const YELLOW: Pattern := Pattern(NONE + ALL + ALL + ALL, 8, 4)
  const BLUE: Pattern := Pattern(ALL + NONE + NONE + ALL, 8, 4)
  const MAGENTA: Pattern := Pattern(ALL + NONE + ALL + ALL, 8, 4)
  const CYAN: Pattern := Pattern(ALL + ALL + NONE + ALL, 8, 4)

  lemma NoneAndAll(i: nat)
    requires i < 8
    ensures !Bit(0x00, i) && Bit(0xFF, i)
  {}

  lemma EveryOther(i: nat)
    requires i < 8
    ensures Bit(0x55, i) <==> i % 2 == 1
    ensures Bit(0xAA, i) <==> i % 2 == 0
  {}

  lemma BlackAndWhite(px: nat, py: nat, layer: nat)
    ensures PatternOk(BLACK) && PatternOk(WHITE)
    ensures !PatternPixel(BLACK, px, py, layer) && PatternPixel(WHITE, px, py, layer)
  {
    NoneAndAll(px % 8);
    hide Bit;
    assert layer % 1 == 0;
    assert NONE[py % 8] == 0x00 && ALL[py % 8] == 0xFF;
  }

  lemma RowOfGray(p: Pattern, words: seq<bv8>, px: nat, py: nat, layer: nat)
    requires |words| == 8 && p == Pattern(words, 8, 1)
    ensures PatternOk(p) && PatternPixel(p, px, py, layer) == Bit(words[py % 8], px % 8)
  {
    hide Bit;
    assert layer % 1 == 0;
    PlaneAt(p, 0, py % 8);
  }

  /** The grey patterns differ from row to row: one pixel in four, every other one as on a
      chessboard, and three in four. */
  lemma Grays(px: nat, py: nat, layer: nat)
    ensures PatternOk(GRAY25) && PatternOk(GRAY50) && PatternOk(GRAY75)
    ensures PatternPixel(GRAY25, px, py, layer) <==> px % 2 == 1 && py % 2 == 1
    ensures PatternPixel(GRAY50, px, py, layer) <==> px % 2 == py % 2
    ensures PatternPixel(GRAY75, px, py, layer) <==> px % 2 == 1 || py % 2 == 0
  {
    GrayRows(py % 8);
    hide Bit, PatternPixel, PatternOk;
    RowOfGray(GRAY25, GRAY25.words, px, py, layer);
    RowOfGray(GRAY50, GRAY50.words, px, py, layer);
    RowOfGray(GRAY75, GRAY75.words, px, py, layer);
    hide GRAY25, GRAY50, GRAY75;
    EveryOther(px % 8);
    NoneAndAll(px % 8);
    SameParity(px);
    SameParity(py);
  }

  lemma SameParity(n: nat)
    ensures n % 8 % 2 == n % 2
  {}

  lemma GrayRows(k: nat)
    requires k < 8
    ensures GRAY25.words[k] == if k % 2 == 0 then 0x00 else 0x55
    ensures GRAY50.words[k] == if k % 2 == 0 then 0xAA else 0x55
    ensures GRAY75.words[k] == if k % 2 == 0 then 0xFF else 0x55
  {
    assert k == 0 || k == 1 || k == 2 || k == 3 || k == 4 || k == 5 || k == 6 || k == 7;
  }

  /** Four planes, each empty or full. */
  predicate FourPlanes(p: Pattern, planes: seq<bool>)
  {
    && |planes| == 4 && p.height == 8 && p.depth == 4 && |p.words| == 32
    && forall k: nat :: k < 4 ==> p.words[8 * k..8 * k + 8] == Full(planes[k])
  }

  lemma PlaneOfFour(p: Pattern, planes: seq<bool>, px: nat, py: nat, layer: nat)
    requires FourPlanes(p, planes)
    ensures PatternOk(p) && PatternPixel(p, px, py, layer) == planes[layer % 4]
  {
    NoneAndAll(px % 8);
    hide Bit;
    var k, i := layer % 4, py % 8;
    assert Plane(p, k) == Full(planes[k]);
    assert ALL[i] == 0xFF && NONE[i] == 0x00;
  }

  function Full(on: bool): seq<bv8> { if on then ALL else NONE }

  lemma FourPlanesAre(a: bool, b: bool, c: bool, d: bool)
    ensures FourPlanes(Pattern(Full(a) + Full(b) + Full(c) + Full(d), 8, 4), [a, b, c, d])
  {
    assert |Full(a)| == |Full(b)| == |Full(c)| == |Full(d)| == 8;
    hide Full, FourPlanes;
    Quarters(Full(a), Full(b), Full(c), Full(d));
    InQuarters(Full(a) + Full(b) + Full(c) + Full(d), [a, b, c, d]);
  }

  lemma InQuarters(w: seq<bv8>, planes: seq<bool>)
    requires |w| == 32 && |planes| == 4
    requires w[0..8] == Full(planes[0]) && w[8..16] == Full(planes[1])
    requires w[16..24] == Full(planes[2]) && w[24..32] == Full(planes[3])
    ensures FourPlanes(Pattern(w, 8, 4), planes)
  {
    hide Full;
    forall k: nat | k < 4 ensures w[8 * k..8 * k + 8] == Full(planes[k]) {
      if k == 0 {} else if k == 1 {} else if k == 2 {} else { assert k == 3; }
    }
  }

  lemma Quarters(a: seq<bv8>, b: seq<bv8>, c: seq<bv8>, d: seq<bv8>)
    requires |a| == |b| == |c| == |d| == 8
    ensures var w := a + b + c + d; w[0..8] == a && w[8..16] == b && w[16..24] == c && w[24..32] == d
  {}

  /** term_color_to_pattern */
  function ColorToPattern(color: int): (p: Pattern)
  {
    match color
    case 0 => BLACK
    case 1 => RED
    case 2 => GREEN
    case 3 => YELLOW
    case 4 => BLUE
    case 5 => MAGENTA
    case 6 => CYAN
    case 7 => WHITE
    case _ => BLACK
  }

  lemma ColorPlanes(color: nat)
    requires 1 <= color <= 6
    ensures FourPlanes(ColorToPattern(color), [color >= 4, color / 2 % 2 == 1, color % 2 == 1, true])
  {
    hide FourPlanes;
    FourPlanesAre(color >= 4, color / 2 % 2 == 1, color % 2 == 1, true);
  }

  /** Colours 0 to 7 are made of red (1), green (2) and blue (4): on a screen of four layers
      the pattern of a colour sets the blue, green and red layers of every pixel that are
      part of it, and the intensity layer unless it is black; others are black. */
  lemma ColorsAreTheirPrimaries(color: int, px: nat, py: nat, layer: nat)
    requires layer < 4
    ensures var p := ColorToPattern(color);
      && PatternOk(p)
      && (0 <= color <= 7 ==>
            (PatternPixel(p, px, py, layer) <==>
             if layer == 0 then color >= 4 else if layer == 1 then color / 2 % 2 == 1
             else if layer == 2 then color % 2 == 1 else color != 0))
      && (!(0 <= color <= 7) ==> !PatternPixel(p, px, py, layer))
  {
    hide PatternPixel, PatternOk, FourPlanes, BLACK, WHITE;
    if 1 <= color <= 6 {
      hide ColorToPattern;
      ColorPlanes(color);
      PlaneOfFour(ColorToPattern(color), [color >= 4, color / 2 % 2 == 1, color % 2 == 1, true], px, py, layer);
    } else {
      BlackAndWhite(px, py, layer);
    }
  }
}

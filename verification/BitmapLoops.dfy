/** The inner loops of raw_bitmap_bitblt and raw_bitmap_fill_rect. */
module BitmapLoops {
  import opened BitmapWords
  import opened BitmapRows

  /** A word of the source; the loop reads one past the last it needs, where
      anything may be. */
  function Read(src: seq<bv8>, k: nat, junk: bv8): bv8 { if k < |src| then src[k] else junk }

  /** Source word k is destination word c for some c < k - 1, and so it is overwritten
      before it is read: the loop reads word k just before it writes word k - 1. */
  predicate Overtaken(d: nat, s: nat, k: nat) { d <= s + k && s + k - d + 2 <= k }

  predicate SeenAt(seen: seq<bv8>, was: seq<bv8>, now: seq<bv8>, same: bool, d: nat, s: nat, k: nat)
  {
    && s + k < |seen| && s + k < |was| && (same ==> s + k < |now|)
    && seen[s + k] == if same && Overtaken(d, s, k) then now[s + k] else was[s + k]
  }

  /** What the loop reads of a source that held was: its words as they were, but for
      those that are overwritten first. */
  ghost predicate Seen(seen: seq<bv8>, was: seq<bv8>, now: seq<bv8>, same: bool, d: nat, s: nat, last: nat)
  {
    |seen| == |was| && forall k: nat :: k <= last ==> SeenAt(seen, was, now, same, d, s, k)
  }

  /** A transfer within one row, with no condition on source and destination: every
      pixel is what the source pixel was when the loop saw it. */
  method BlitRow(dst: array<bv8>, d0: nat, src: array<bv8>, s0: nat, x: nat, xEnd: nat, srcX: nat,
                 fg: bv8, bg: bv8, junk: bv8)
    returns (ghost seen: seq<bv8>)
    requires x < xEnd && d0 + LastWord(x, xEnd) < dst.Length && s0 + LastSource(x, xEnd, srcX) < src.Length
    modifies dst
    ensures Seen(seen, old(src[..]), dst[..], dst == src, d0, s0, LastSource(x, xEnd, srcX))
    ensures forall k: nat :: d0 <= k <= d0 + LastWord(x, xEnd) ==>
      BlitWord(dst[k], old(dst[..])[k], seen, s0, x, xEnd, srcX, k - d0, fg, bg)
    ensures forall k: nat :: k < dst.Length && (k < d0 || k > d0 + LastWord(x, xEnd)) ==> dst[k] == old(dst[..])[k]
  {
    if LastWord(x, xEnd) > 0 {
      seen := BlitWide(dst, d0, src, s0, x, xEnd, srcX, fg, bg, junk);
    } else {
      BlitNarrow(dst, d0, src, s0, x, xEnd, srcX, fg, bg, junk);
      seen := old(src[..]);
    }
  }

  /** A span within one word. */
  method BlitNarrow(dst: array<bv8>, d0: nat, src: array<bv8>, s0: nat, x: nat, xEnd: nat, srcX: nat,
                    fg: bv8, bg: bv8, junk: bv8)
    requires x < xEnd && LastWord(x, xEnd) == 0 && d0 < dst.Length && s0 + LastSource(x, xEnd, srcX) < src.Length
    modifies dst
    ensures BlitWord(dst[d0], old(dst[..])[d0], old(src[..]), s0, x, xEnd, srcX, 0, fg, bg)
    ensures forall k: nat :: k < dst.Length && k != d0 ==> dst[k] == old(dst[..])[k]
  {
    hide BlitWord, Pushed, Realigned, CombineBitsFgBg, CombineWordsFgBg, LeftMask, RightMask, Bit, Byte;
    ghost var ss, last := src[..], LastSource(x, xEnd, srcX);
    var b := Pushed(src[s0] as bv32, Read(src[..], s0 + 1, junk));
    FirstWindow(ss, s0, last, junk);
    OnlyMask(x, xEnd);
    WrittenWord(b, dst[d0], ss, s0, x, xEnd, srcX, 0, fg, bg, LeftMask(x) & RightMask(xEnd));
    dst[d0] := CombineBitsFgBg(dst[d0], Realigned(b, Realignment(x, srcX)), LeftMask(x) & RightMask(xEnd), fg, bg);
  }

  /** The words that are done, and what was seen for them. */
  ghost predicate WideProgress(now: seq<bv8>, was: seq<bv8>, ss: seq<bv8>, seen: seq<bv8>, same: bool, d0: nat, s0: nat,
                               x: nat, xEnd: nat, srcX: nat, c: nat, upto: nat, fg: bv8, bg: bv8)
  {
    && |now| == |was| && |seen| == |ss| && (same ==> ss == was) && s0 + upto < |ss| && d0 + c <= |now|
    && (forall k: nat :: d0 <= k < d0 + c ==> BlitWord(now[k], was[k], seen, s0, x, xEnd, srcX, k - d0, fg, bg))
    && (forall k: nat :: k < |now| && (k < d0 || k >= d0 + c) ==> now[k] == was[k])
    && (forall k: nat :: k <= upto ==> SeenAt(seen, ss, now, same, d0, s0, k))
  }

  function Least(a: nat, b: nat): nat { if a < b then a else b }

  /** A span over several words. */
  method BlitWide(dst: array<bv8>, d0: nat, src: array<bv8>, s0: nat, x: nat, xEnd: nat, srcX: nat,
                  fg: bv8, bg: bv8, junk: bv8)
    returns (ghost seen: seq<bv8>)
    requires x < xEnd && LastWord(x, xEnd) > 0
    requires d0 + LastWord(x, xEnd) < dst.Length && s0 + LastSource(x, xEnd, srcX) < src.Length
    modifies dst
    ensures Seen(seen, old(src[..]), dst[..], dst == src, d0, s0, LastSource(x, xEnd, srcX))
    ensures forall k: nat :: d0 <= k <= d0 + LastWord(x, xEnd) ==>
      BlitWord(dst[k], old(dst[..])[k], seen, s0, x, xEnd, srcX, k - d0, fg, bg)
    ensures forall k: nat :: k < dst.Length && (k < d0 || k > d0 + LastWord(x, xEnd)) ==> dst[k] == old(dst[..])[k]
  {
    hide BlitWord, Pushed, Realigned, CombineBitsFgBg, CombineWordsFgBg, LeftMask, RightMask, Bit, Byte, PixelNumber,
      Window, WideProgress;
    ghost var was, ss, last, same := dst[..], src[..], LastSource(x, xEnd, srcX), dst == src;
    seen := ss;
    var r, n := Realignment(x, srcX), LastWord(x, xEnd);
    var b := Pushed(src[s0] as bv32, Read(src[..], s0 + 1, junk));
    FirstWindow(ss, s0, last, junk);
    FirstMask(x, xEnd);
    WrittenWord(b, was[d0], ss, s0, x, xEnd, srcX, 0, fg, bg, LeftMask(x));
    dst[d0] := CombineBitsFgBg(dst[d0], Realigned(b, r), LeftMask(x), fg, bg);
    FirstProgress(dst[..], was, ss, same, d0, s0, x, xEnd, srcX, last, fg, bg);
    var c: nat := 1;
    while c < n
      invariant 1 <= c <= n && |seen| == |ss| && Window(b, seen, s0, last, c - 1)
      invariant WideProgress(dst[..], was, ss, seen, same, d0, s0, x, xEnd, srcX, c, Least(c, last), fg, bg)
      invariant dst != src ==> src[..] == ss
    {
      b, seen := NextWindow(dst, d0, src, s0, x, xEnd, srcX, c, b, was, ss, seen, fg, bg, junk);
      MiddleMask(x, xEnd, c);
      WrittenWord(b, was[d0 + c], seen, s0, x, xEnd, srcX, c, fg, bg, 0xFF);
      ghost var now := dst[..];
      StillUnwritten(now, was, ss, seen, same, d0, s0, x, xEnd, srcX, c, Least(c + 1, last), fg, bg);
      dst[d0 + c] := CombineWordsFgBg(Realigned(b, r), fg, bg);
      OneMoreWord(now, dst[d0 + c], was, ss, seen, same, d0, s0, x, xEnd, srcX, c, Least(c + 1, last), fg, bg);
      assert dst[..] == now[d0 + c := dst[d0 + c]];
      c := c + 1;
    }
    b, seen := NextWindow(dst, d0, src, s0, x, xEnd, srcX, n, b, was, ss, seen, fg, bg, junk);
    FinalMask(x, xEnd);
    WrittenWord(b, was[d0 + n], seen, s0, x, xEnd, srcX, n, fg, bg, RightMask(xEnd));
    ghost var now := dst[..];
    StillUnwritten(now, was, ss, seen, same, d0, s0, x, xEnd, srcX, n, Least(n + 1, last), fg, bg);
    dst[d0 + n] := CombineBitsFgBg(dst[d0 + n], Realigned(b, r), RightMask(xEnd), fg, bg);
    OneMoreWord(now, dst[d0 + n], was, ss, seen, same, d0, s0, x, xEnd, srcX, n, Least(n + 1, last), fg, bg);
    assert dst[..] == now[d0 + n := dst[d0 + n]];
    AllWords(dst[..], was, ss, seen, same, d0, s0, x, xEnd, srcX, fg, bg);
  }

  lemma FirstWindow(ss: seq<bv8>, s0: nat, last: nat, junk: bv8)
    requires s0 + last < |ss|
    ensures Window(Pushed(ss[s0] as bv32, Read(ss, s0 + 1, junk)), ss, s0, last, 0)
  {
    PushedBytes(ss[s0] as bv32, Read(ss, s0 + 1, junk));
    assert Byte(ss[s0] as bv32, 0) == ss[s0];
    hide Byte, Pushed;
  }

  lemma FirstProgress(now: seq<bv8>, was: seq<bv8>, ss: seq<bv8>, same: bool, d0: nat, s0: nat, x: nat, xEnd: nat,
                      srcX: nat, last: nat, fg: bv8, bg: bv8)
    requires d0 < |was| && s0 + last < |ss| && |now| == |was| && now == was[d0 := now[d0]] && (same ==> ss == was)
    requires BlitWord(now[d0], was[d0], ss, s0, x, xEnd, srcX, 0, fg, bg)
    ensures WideProgress(now, was, ss, ss, same, d0, s0, x, xEnd, srcX, 1, Least(1, last), fg, bg)
  {
    hide BlitWord;
  }

  lemma StillUnwritten(now: seq<bv8>, was: seq<bv8>, ss: seq<bv8>, seen: seq<bv8>, same: bool, d0: nat, s0: nat,
                       x: nat, xEnd: nat, srcX: nat, c: nat, upto: nat, fg: bv8, bg: bv8)
    requires WideProgress(now, was, ss, seen, same, d0, s0, x, xEnd, srcX, c, upto, fg, bg)
    ensures |now| == |was| && (d0 + c < |now| ==> now[d0 + c] == was[d0 + c])
  {
    hide BlitWord;
  }

  /** One more word is written. */
  lemma OneMoreWord(now: seq<bv8>, w: bv8, was: seq<bv8>, ss: seq<bv8>, seen: seq<bv8>, same: bool, d0: nat, s0: nat,
                    x: nat, xEnd: nat, srcX: nat, c: nat, upto: nat, fg: bv8, bg: bv8)
    requires WideProgress(now, was, ss, seen, same, d0, s0, x, xEnd, srcX, c, upto, fg, bg)
    requires d0 + c < |now| && upto <= c + 1 && BlitWord(w, was[d0 + c], seen, s0, x, xEnd, srcX, c, fg, bg)
    ensures WideProgress(now[d0 + c := w], was, ss, seen, same, d0, s0, x, xEnd, srcX, c + 1, upto, fg, bg)
  {
    hide BlitWord;
    var now' := now[d0 + c := w];
    forall k: nat | k <= upto ensures SeenAt(seen, ss, now', same, d0, s0, k) {
      assert SeenAt(seen, ss, now, same, d0, s0, k);
    }
  }

  lemma AllWords(now: seq<bv8>, was: seq<bv8>, ss: seq<bv8>, seen: seq<bv8>, same: bool, d0: nat, s0: nat,
                 x: nat, xEnd: nat, srcX: nat, fg: bv8, bg: bv8)
    requires x < xEnd
    requires var n, last := LastWord(x, xEnd), LastSource(x, xEnd, srcX);
      WideProgress(now, was, ss, seen, same, d0, s0, x, xEnd, srcX, n + 1, Least(n + 1, last), fg, bg)
    ensures Seen(seen, ss, now, same, d0, s0, LastSource(x, xEnd, srcX))
    ensures |now| == |was|
    ensures forall k: nat :: d0 <= k <= d0 + LastWord(x, xEnd) && k < |now| ==>
      BlitWord(now[k], was[k], seen, s0, x, xEnd, srcX, k - d0, fg, bg)
    ensures forall k: nat :: k < |now| && (k < d0 || k > d0 + LastWord(x, xEnd)) ==> now[k] == was[k]
  {
    assert LastSource(x, xEnd, srcX) <= LastWord(x, xEnd) + 1;
    hide BlitWord, LastWord, LastSource;
  }

  /** A word depends on the source up to the word behind its own place. */
  lemma BlitWordLocal(b: bv8, was: bv8, src: seq<bv8>, src': seq<bv8>, s: nat, x: nat, xEnd: nat, srcX: nat, c: nat,
                      fg: bv8, bg: bv8)
    requires BlitWord(b, was, src, s, x, xEnd, srcX, c, fg, bg)
    requires |src'| == |src| && forall k: nat :: k <= s + c + 1 && k < |src| ==> src'[k] == src[k]
    ensures BlitWord(b, was, src', s, x, xEnd, srcX, c, fg, bg)
  {
    hide Bit;
    forall i | 0 <= i < 8 && x <= PixelNumber(x, c, i) < xEnd
      ensures var q := SourceNumber(x, srcX, PixelNumber(x, c, i));
        s + q / 8 < |src| ==> StreamBit(src', s, q) == StreamBit(src, s, q)
    {
      var q := SourceNumber(x, srcX, PixelNumber(x, c, i));
      assert q / 8 <= c + 1;
      assert s + q / 8 < |src| ==> src'[s + q / 8] == src[s + q / 8];
    }
  }

  /** What was seen of one more word of the source. */
  lemma OneMoreSeen(now: seq<bv8>, was: seq<bv8>, ss: seq<bv8>, seen: seq<bv8>, same: bool, d0: nat, s0: nat,
                    x: nat, xEnd: nat, srcX: nat, c: nat, w: bv8, fg: bv8, bg: bv8)
    requires WideProgress(now, was, ss, seen, same, d0, s0, x, xEnd, srcX, c, c, fg, bg) && s0 + c + 1 < |ss|
    requires w == if same then now[s0 + c + 1] else ss[s0 + c + 1]
    ensures WideProgress(now, was, ss, seen[s0 + c + 1 := w], same, d0, s0, x, xEnd, srcX, c, c + 1, fg, bg)
  {
    hide BlitWord;
    var seen' := seen[s0 + c + 1 := w];
    forall k: nat | d0 <= k < d0 + c ensures BlitWord(now[k], was[k], seen', s0, x, xEnd, srcX, k - d0, fg, bg) {
      BlitWordLocal(now[k], was[k], seen, seen', s0, x, xEnd, srcX, k - d0, fg, bg);
    }
    forall k: nat | k <= c + 1 ensures SeenAt(seen', ss, now, same, d0, s0, k) {
      if k <= c { assert SeenAt(seen, ss, now, same, d0, s0, k); }
    }
  }

  /** The next word is read and pushed. */
  method NextWindow(dst: array<bv8>, d0: nat, src: array<bv8>, s0: nat, x: nat, xEnd: nat, srcX: nat, c: nat, b: bv32,
                    ghost was: seq<bv8>, ghost ss: seq<bv8>, ghost seen: seq<bv8>, fg: bv8, bg: bv8, junk: bv8)
    returns (b': bv32, ghost seen': seq<bv8>)
    requires c >= 1 && x < xEnd && s0 + LastSource(x, xEnd, srcX) < |ss| == |seen|
    requires |ss| == src.Length && Window(b, seen, s0, LastSource(x, xEnd, srcX), c - 1)
    requires WideProgress(dst[..], was, ss, seen, dst == src, d0, s0, x, xEnd, srcX, c,
                          Least(c, LastSource(x, xEnd, srcX)), fg, bg)
    requires dst != src ==> src[..] == ss
    ensures |seen'| == |ss| && Window(b', seen', s0, LastSource(x, xEnd, srcX), c)
    ensures WideProgress(dst[..], was, ss, seen', dst == src, d0, s0, x, xEnd, srcX, c,
                         Least(c + 1, LastSource(x, xEnd, srcX)), fg, bg)
  {
    hide Byte, Pushed, WideProgress, Window, LastSource;
    ghost var last := LastSource(x, xEnd, srcX);
    var w := Read(src[..], s0 + c + 1, junk);
    seen' := seen;
    if c + 1 <= last {
      seen' := seen[s0 + c + 1 := w];
      OneMoreSeen(dst[..], was, ss, seen, dst == src, d0, s0, x, xEnd, srcX, c, w, fg, bg);
    }
    WindowKept(b, seen, seen', s0, last, c - 1);
    WindowMoves(b, seen', s0, last, c - 1, w);
    b' := Pushed(b, w);
  }

  lemma WindowKept(b: bv32, src: seq<bv8>, src': seq<bv8>, s: nat, last: nat, c: nat)
    requires Window(b, src, s, last, c) && |src'| == |src|
    requires forall k: nat :: k < |src| && k != s + c + 2 ==> src'[k] == src[k]
    ensures Window(b, src', s, last, c)
  {
    hide Byte;
  }

  /** Word c of a filled row. */
  ghost predicate FillWord(w: bv8, was: bv8, x: nat, xEnd: nat, c: nat, fg: bv8)
  {
    forall i :: 0 <= i < 8 ==> Bit(w, i) == if x <= PixelNumber(x, c, i) < xEnd then Bit(fg, i) else Bit(was, i)
  }

  lemma FilledWord(was: bv8, x: nat, xEnd: nat, c: nat, fg: bv8, m: bv8)
    requires forall i :: 0 <= i < 8 ==> (Bit(m, i) <==> x <= PixelNumber(x, c, i) < xEnd)
    ensures FillWord(CombineBits(was, fg, m), was, x, xEnd, c, fg)
    ensures (forall i :: 0 <= i < 8 ==> Bit(m, i)) ==> FillWord(fg, was, x, xEnd, c, fg)
  {
    hide Bit, CombineBits;
    forall i | 0 <= i < 8
      ensures Bit(CombineBits(was, fg, m), i) == if x <= PixelNumber(x, c, i) < xEnd then Bit(fg, i) else Bit(was, i)
    {
      CombineBitsBit(was, fg, m, i);
    }
  }

  method FillRow(dst: array<bv8>, d0: nat, x: nat, xEnd: nat, fg: bv8)
    requires x < xEnd && d0 + LastWord(x, xEnd) < dst.Length
    modifies dst
    ensures forall k: nat :: d0 <= k <= d0 + LastWord(x, xEnd) ==>
      FillWord(dst[k], old(dst[..])[k], x, xEnd, k - d0, fg)
    ensures forall k: nat :: k < dst.Length && (k < d0 || k > d0 + LastWord(x, xEnd)) ==> dst[k] == old(dst[..])[k]
  {
    hide FillWord, CombineBits, LeftMask, RightMask, Bit;
    ghost var was := dst[..];
    var n := LastWord(x, xEnd);
    if n > 0 {
      FirstMask(x, xEnd);
      FilledWord(was[d0], x, xEnd, 0, fg, LeftMask(x));
      dst[d0] := CombineBits(dst[d0], fg, LeftMask(x));
      var c: nat := 1;
      while c < n
        invariant 1 <= c <= n
        invariant forall k: nat :: d0 <= k < d0 + c ==> FillWord(dst[k], was[k], x, xEnd, k - d0, fg)
        invariant forall k: nat :: k < dst.Length && (k < d0 || k >= d0 + c) ==> dst[k] == was[k]
      {
        MiddleMask(x, xEnd, c);
        FilledWord(was[d0 + c], x, xEnd, c, fg, 0xFF);
        dst[d0 + c] := fg;
        c := c + 1;
      }
      FinalMask(x, xEnd);
      FilledWord(was[d0 + n], x, xEnd, n, fg, RightMask(xEnd));
      dst[d0 + n] := CombineBits(dst[d0 + n], fg, RightMask(xEnd));
    } else {
      OnlyMask(x, xEnd);
      FilledWord(was[d0], x, xEnd, 0, fg, LeftMask(x) & RightMask(xEnd));
      dst[d0] := CombineBits(dst[d0], fg, LeftMask(x) & RightMask(xEnd));
    }
  }
}

/** The ring of interrupt frames of rtlib.cpp, without a stored head: a zero byte
    means free. */
module InterruptRing {
  import opened Products

  type Byte = b: nat | b < 256

  /** Number (never zero), size, parameters. */
  datatype Frame = Frame(number: Byte, params: seq<Byte>)

  /** The cells of the smaller of the two rings. */
  const FLOW_CONTROLLED_LEN: nat := 10

  predicate GoodFrame(f: Frame) { f.number != 0 && |f.params| <= 255 }

  function Encoded(f: Frame): (s: seq<Byte>)
    ensures |s| == 2 + |f.params|
  {
    [f.number, |f.params| % 256] + f.params
  }

  function Flat(fs: seq<Frame>): seq<Byte>
  {
    if fs == [] then [] else Encoded(fs[0]) + Flat(fs[1..])
  }

  lemma {:induction false} FlatAppend(fs: seq<Frame>, f: Frame)
    ensures Flat(fs + [f]) == Flat(fs) + Encoded(f)
  {
    if fs == [] {
      assert fs + [f] == [f] && Flat([]) == [];
    } else {
      assert (fs + [f])[1..] == fs[1..] + [f];
      FlatAppend(fs[1..], f);
    }
  }

  /** The k-th cell from cell w. */
  function Wrapped(w: nat, k: nat, n: nat): (i: nat)
    requires n > 0
    ensures i < n
  {
    (w + k) % n
  }

  lemma WrapIs(w: nat, k: nat, n: nat)
    requires w < n && k <= n
    ensures Wrapped(w, k, n) == if w + k < n then w + k else w + k - n
  {
    if w + k < n { ModIs(w + k, n, 0, w + k); } else { ModIs(w + k, n, 1, w + k - n); }
  }

  lemma WrapAdds(w: nat, j: nat, k: nat, n: nat)
    requires w < n && j <= n && k <= n && j + k <= n
    ensures Wrapped(Wrapped(w, j, n), k, n) == Wrapped(w, j + k, n)
  {
    WrapIs(w, j, n);
    WrapIs(w, j + k, n);
    WrapIs(Wrapped(w, j, n), k, n);
  }

  /** Every cell is some number of cells from any other. */
  lemma Reached(w: nat, i: nat, n: nat) returns (k: nat)
    requires w < n && i < n
    ensures k < n && Wrapped(w, k, n) == i
  {
    k := if i >= w then i - w else n + i - w;
    WrapIs(w, k, n);
  }

  // -------------------------------------------------- what the memory holds

  /** From cell h on the memory holds the frames, and zeroes from there to h. */
  ghost predicate Holds(mem: seq<Byte>, h: nat, fs: seq<Frame>)
  {
    && h < |mem| && (forall k :: 0 <= k < |fs| ==> GoodFrame(fs[k])) && |Flat(fs)| <= |mem|
    && forall k: nat :: k < |mem| ==> mem[Wrapped(h, k, |mem|)] == if k < |Flat(fs)| then Flat(fs)[k] else 0
  }

  /** The scan of send_gambit_int: r cells from w on are free. */
  predicate Free(mem: seq<Byte>, w: nat, r: nat)
    requires |mem| > 0
  {
    forall k: nat :: k < r ==> mem[Wrapped(w, k, |mem|)] == 0
  }

  /** required_len, an 8-bit variable. */
  function Required(len: nat): nat { (2 + len) % 256 }

  lemma FlatOfNone()
    ensures Flat([]) == []
  {}

  lemma FlatSplits(fs: seq<Frame>)
    requires fs != []
    ensures Flat(fs) == Encoded(fs[0]) + Flat(fs[1..])
  {}

  lemma OldestIsNonzero(fs: seq<Frame>)
    requires fs != [] && forall k :: 0 <= k < |fs| ==> GoodFrame(fs[k])
    ensures |Flat(fs)| >= 2 && Flat(fs)[0] != 0
  {}

  lemma FreeCell(mem: seq<Byte>, h: nat, fs: seq<Frame>, k: nat)
    requires Holds(mem, h, fs) && |Flat(fs)| + k < |mem|
    ensures mem[Wrapped(Wrapped(h, |Flat(fs)|, |mem|), k, |mem|)] == 0
  {
    WrapAdds(h, |Flat(fs)|, k, |mem|);
  }

  /** What is left free is found free. */
  lemma RoomIsFree(mem: seq<Byte>, h: nat, fs: seq<Frame>, r: nat)
    requires Holds(mem, h, fs) && |Flat(fs)| + r <= |mem|
    ensures Free(mem, Wrapped(h, |Flat(fs)|, |mem|), r)
  {
    var used := |Flat(fs)|;
    hide Wrapped;
    forall k: nat | k < r ensures mem[Wrapped(Wrapped(h, used, |mem|), k, |mem|)] == 0 {
      FreeCell(mem, h, fs, k);
    }
  }

  /** A scan that is too long meets the number of the oldest frame. */
  lemma OldestGuards(mem: seq<Byte>, h: nat, fs: seq<Frame>, r: nat)
    requires Holds(mem, h, fs) && fs != [] && |Flat(fs)| + r > |mem|
    ensures !Free(mem, Wrapped(h, |Flat(fs)|, |mem|), r)
  {
    var n, used := |mem|, |Flat(fs)|;
    OldestIsNonzero(fs);
    WrapAdds(h, used, n - used, n);
    WrapIs(h, n, n);
    WrapIs(h, 0, n);
    assert mem[Wrapped(h, 0, n)] == Flat(fs)[0];
    assert Wrapped(Wrapped(h, used, n), n - used, n) == h;
  }

  /** An empty ring passes every scan. */
  lemma EmptyIsFree(mem: seq<Byte>, h: nat, w: nat, r: nat)
    requires Holds(mem, h, []) && w < |mem|
    ensures Free(mem, w, r)
  {
    forall k: nat | k < r ensures mem[Wrapped(w, k, |mem|)] == 0 {
      var j := Reached(h, Wrapped(w, k, |mem|), |mem|);
    }
  }

  lemma HoldsBounds(mem: seq<Byte>, h: nat, fs: seq<Frame>)
    ensures Holds(mem, h, fs) ==> h < |mem| && |Flat(fs)| <= |mem| && (fs == [] <==> |Flat(fs)| == 0)
  {
    if Holds(mem, h, fs) && fs != [] { OldestIsNonzero(fs); }
    FlatOfNone();
  }

  predicate Fits(n: nat, fs: seq<Frame>, len: nat) { |Flat(fs)| + 2 + len <= n }

  /** A frame is accepted exactly when it fits, unless the ring is empty and the
      frame longer than the ring, or the 8-bit required length wraps around. */
  lemma AcceptsWhatFitsExactlyWhen(mem: seq<Byte>, h: nat, fs: seq<Frame>, len: nat)
    requires Holds(mem, h, fs) && len < 256
    ensures var w, n := Wrapped(h, |Flat(fs)|, |mem|), |mem|;
      (Free(mem, w, Required(len)) <==> Fits(n, fs, len)) <==>
        if len <= 253 then fs != [] || 2 + len <= n
        else Fits(n, fs, len) || (len == 255 && |Flat(fs)| == n)
  {
    hide Holds, Flat, Wrapped, Free;
    AcceptedExactlyWhen(mem, h, fs, len);
    HoldsBounds(mem, h, fs);
  }

  /** What the scan lets through. */
  lemma AcceptedExactlyWhen(mem: seq<Byte>, h: nat, fs: seq<Frame>, len: nat)
    requires Holds(mem, h, fs) && len < 256
    ensures Free(mem, Wrapped(h, |Flat(fs)|, |mem|), Required(len)) <==>
      fs == [] || |Flat(fs)| + Required(len) <= |mem|
  {
    hide Flat, Wrapped, Free;
    if fs == [] { EmptyIsFree(mem, h, Wrapped(h, |Flat(fs)|, |mem|), Required(len)); }
    else if |Flat(fs)| + Required(len) <= |mem| { RoomIsFree(mem, h, fs, Required(len)); }
    else { OldestGuards(mem, h, fs, Required(len)); }
  }

  // -------------------------------------------------- writing and consuming

  /** The cells after a frame is written from cell w on. */
  ghost predicate WrittenAt(mem': seq<Byte>, mem: seq<Byte>, w: nat, s: seq<Byte>)
    requires |mem| > 0
  {
    && |mem'| == |mem|
    && (forall k: nat :: k < |s| ==> mem'[Wrapped(w, k, |mem|)] == s[k])
    && (forall k: nat :: |s| <= k < |mem| ==> mem'[Wrapped(w, k, |mem|)] == mem[Wrapped(w, k, |mem|)])
  }

  /** The cells after the first m bytes of s are written one by one from cell w on,
      around the ring as often as it takes. */
  function Poured(mem: seq<Byte>, w: nat, s: seq<Byte>, m: nat): (r: seq<Byte>)
    requires |mem| > 0 && m <= |s|
    ensures |r| == |mem|
  {
    if m == 0 then mem else Poured(mem, w, s, m - 1)[Wrapped(w, m - 1, |mem|) := s[m - 1]]
  }

  /** A cell holds the byte that was last written to it. */
  lemma {:induction false} LastWriteStays(mem: seq<Byte>, w: nat, s: seq<Byte>, m: nat, j: nat)
    requires |mem| > 0 && j < m <= |s| && m <= j + |mem|
    ensures Poured(mem, w, s, m)[Wrapped(w, j, |mem|)] == s[j]
  {
    if j < m - 1 {
      CellsApart(w, j, m - 1, |mem|);
      LastWriteStays(mem, w, s, m - 1, j);
    }
  }

  /** Cells that were not reached are as they were. */
  lemma {:induction false} UnreachedStays(mem: seq<Byte>, w: nat, s: seq<Byte>, m: nat, j: nat)
    requires m <= |s| && m <= j < |mem|
    ensures Poured(mem, w, s, m)[Wrapped(w, j, |mem|)] == mem[Wrapped(w, j, |mem|)]
  {
    if m > 0 {
      CellsApart(w, m - 1, j, |mem|);
      UnreachedStays(mem, w, s, m - 1, j);
    }
  }

  lemma CellsApart(w: nat, j: nat, k: nat, n: nat)
    requires n > 0 && j < k < j + n
    ensures Wrapped(w, j, n) != Wrapped(w, k, n)
  {
    if (w + j) % n == (w + k) % n {
      var q, p := (w + k) / n, (w + j) / n;
      assert q * n - p * n == k - j;
      if p < q { RowsApart(n, p, q); } else if q < p { RowsApart(n, q, p); }
    }
  }

  lemma PouredIsWritten(mem: seq<Byte>, w: nat, s: seq<Byte>)
    requires 0 < |mem| && |s| <= |mem|
    ensures WrittenAt(Poured(mem, w, s, |s|), mem, w, s)
  {
    hide Wrapped;
    forall k: nat | k < |s| ensures Poured(mem, w, s, |s|)[Wrapped(w, k, |mem|)] == s[k] {
      LastWriteStays(mem, w, s, |s|, k);
    }
    forall k: nat | |s| <= k < |mem|
      ensures Poured(mem, w, s, |s|)[Wrapped(w, k, |mem|)] == mem[Wrapped(w, k, |mem|)]
    {
      UnreachedStays(mem, w, s, |s|, k);
    }
  }

  /** The cells after a frame is written from cell w on. */
  function AfterFrame(mem: seq<Byte>, w: nat, f: Frame): (r: seq<Byte>)
    requires |mem| > 0
    ensures |r| == |mem|
  {
    Poured(mem, w, Encoded(f), 2 + |f.params|)
  }

  /** An accepted frame is queued behind the others, none of which is overwritten. */
  lemma WritingQueues(mem: seq<Byte>, mem': seq<Byte>, h: nat, fs: seq<Frame>, f: Frame)
    requires Holds(mem, h, fs) && GoodFrame(f) && |Flat(fs)| + 2 + |f.params| <= |mem|
    requires WrittenAt(mem', mem, Wrapped(h, |Flat(fs)|, |mem|), Encoded(f))
    ensures Holds(mem', h, fs + [f])
    ensures Wrapped(Wrapped(h, |Flat(fs)|, |mem|), 2 + |f.params|, |mem|) == Wrapped(h, |Flat(fs + [f])|, |mem|)
  {
    var n, used, s := |mem|, |Flat(fs)|, Encoded(f);
    var w := Wrapped(h, used, n);
    FlatAppend(fs, f);
    WrapAdds(h, used, |s|, n);
    hide Wrapped, Flat, Encoded;
    forall k: nat | k < n
      ensures mem'[Wrapped(h, k, n)] == if k < used + |s| then (Flat(fs) + s)[k] else 0
    {
      CellAfterWrite(mem, mem', h, used, s, k);
      assert mem[Wrapped(h, k, n)] == if k < used then Flat(fs)[k] else 0;
    }
  }

  lemma CellAfterWrite(mem: seq<Byte>, mem': seq<Byte>, h: nat, used: nat, s: seq<Byte>, k: nat)
    requires h < |mem| && used + |s| <= |mem| && k < |mem| && WrittenAt(mem', mem, Wrapped(h, used, |mem|), s)
    ensures mem'[Wrapped(h, k, |mem|)] == if used <= k < used + |s| then s[k - used] else mem[Wrapped(h, k, |mem|)]
  {
    var n, w := |mem|, Wrapped(h, used, |mem|);
    if k >= used {
      WrapAdds(h, used, k - used, n);
    } else {
      WrapIs(h, k, n);
      WrapIs(h, used, n);
      WrapIs(w, n + k - used, n);
    }
  }

  /** The cells after a whole frame of r bytes is zeroed from cell h on. */
  lemma ZeroingDequeues(mem: seq<Byte>, mem': seq<Byte>, h: nat, fs: seq<Frame>)
    requires Holds(mem, h, fs) && fs != []
    requires WrittenAt(mem', mem, h, seq(2 + |fs[0].params|, _ => 0))
    ensures Holds(mem', Wrapped(h, 2 + |fs[0].params|, |mem|), fs[1..])
    ensures Wrapped(Wrapped(h, 2 + |fs[0].params|, |mem|), |Flat(fs[1..])|, |mem|) == Wrapped(h, |Flat(fs)|, |mem|)
  {
    hide Wrapped, Flat, Encoded, WrittenAt;
    var n, r := |mem|, 2 + |fs[0].params|;
    var h' := Wrapped(h, r, n);
    FlatSplits(fs);
    SameSize(mem, mem', h, seq(2 + |fs[0].params|, _ => 0));
    WrapAdds(h, r, |Flat(fs[1..])|, n);
    forall k: nat | k < n ensures mem'[Wrapped(h', k, n)] == if k < |Flat(fs[1..])| then Flat(fs[1..])[k] else 0 {
      CellAfterZeroing(mem, mem', h, r, k);
    }
  }

  lemma SameSize(mem: seq<Byte>, mem': seq<Byte>, w: nat, s: seq<Byte>)
    requires |mem| > 0 && WrittenAt(mem', mem, w, s)
    ensures |mem'| == |mem|
  {}

  lemma CellAfterZeroing(mem: seq<Byte>, mem': seq<Byte>, h: nat, r: nat, k: nat)
    requires h < |mem| && r <= |mem| && k < |mem| && WrittenAt(mem', mem, h, seq(r, _ => 0))
    ensures mem'[Wrapped(Wrapped(h, r, |mem|), k, |mem|)] == if r + k < |mem| then mem[Wrapped(h, r + k, |mem|)] else 0
  {
    var n := |mem|;
    if r + k < n {
      WrapAdds(h, r, k, n);
    } else {
      WrapIs(h, r, n);
      WrapIs(Wrapped(h, r, n), k, n);
      WrapIs(h, r + k - n, n);
    }
  }

  // -------------------------------------------------- when a call keeps the queue

  /** The memory holds fs from the reader's cell on, and the writer's is behind them. */
  ghost predicate Queued(mem: seq<Byte>, h: nat, w: nat, fs: seq<Frame>)
  {
    Holds(mem, h, fs) && w == Wrapped(h, |Flat(fs)|, |mem|)
  }

  /** The frame is no longer than the ring or the ring is not empty, and the 8-bit
      required length does not wrap around. If it does: for 254 parameters the frame
      fills the empty ring, for 255 it is refused. */
  predicate KeepsQueue(n: nat, fs: seq<Frame>, len: nat)
  {
    if len <= 253 then fs != [] || 2 + len <= n
    else if len == 254 then fs == [] && n == 256
    else |Flat(fs)| == n
  }

  /** A call of send_gambit_int leaves the queued frames, followed by the new one if it
      was accepted, exactly in these cases. */
  lemma SendKeepsQueueExactlyWhen(mem: seq<Byte>, h: nat, w: nat, fs: seq<Frame>, f: Frame)
    requires Queued(mem, h, w, fs) && GoodFrame(f)
    ensures KeepsQueue(|mem|, fs, |f.params|) <==>
      if Free(mem, w, Required(|f.params|))
      then Queued(AfterFrame(mem, w, f), h, Wrapped(w, Required(|f.params|), |mem|), fs + [f])
      else Queued(mem, h, w, fs)
  {
    hide Holds, Wrapped, Flat, Free, AfterFrame;
    AcceptedExactlyWhen(mem, h, fs, |f.params|);
    FlatAppend(fs, f);
    HoldsBounds(mem, h, fs);
    HoldsBounds(AfterFrame(mem, w, f), h, fs + [f]);
    if |Flat(fs)| + 2 + |f.params| <= |mem| {
      FittingFrame(mem, h, w, fs, f);
      if |f.params| >= 254 { WriterIsLost(h, |Flat(fs)|, |f.params|, |mem|); }
    }
  }

  lemma FittingFrame(mem: seq<Byte>, h: nat, w: nat, fs: seq<Frame>, f: Frame)
    requires Queued(mem, h, w, fs) && GoodFrame(f) && |Flat(fs)| + 2 + |f.params| <= |mem|
    ensures Holds(AfterFrame(mem, w, f), h, fs + [f])
    ensures Wrapped(w, 2 + |f.params|, |mem|) == Wrapped(h, |Flat(fs + [f])|, |mem|)
  {
    hide Holds, Wrapped, Flat, WrittenAt;
    PouredIsWritten(mem, w, Encoded(f));
    WritingQueues(mem, AfterFrame(mem, w, f), h, fs, f);
  }

  /** With the required length wrapped around the writer's cell is not the end of the
      frame, but for the frame that fills the ring. */
  lemma WriterIsLost(h: nat, used: nat, len: nat, n: nat)
    requires h < n && 254 <= len <= 255 && used + 2 + len <= n
    ensures Wrapped(Wrapped(h, used, n), Required(len), n) == Wrapped(h, used + 2 + len, n) <==>
      len == 254 && used == 0 && n == 256
  {
    WrapAdds(h, used, Required(len), n);
    hide Wrapped;
    if used + 2 + len < n {
      CellsApart(h, used + Required(len), used + 2 + len, n);
    } else {
      WrapIs(h, n, n);
      WrapIs(h, 0, n);
      if used + Required(len) > 0 { CellsApart(h, 0, used + Required(len), n); }
    }
  }

  // -------------------------------------------------- where it does not

  /** 254 zeroes wipe every frame from a ring no longer than them, full or not, and
      leave an index at which the consumer sees nothing. */
  lemma ZeroesWipe(mem: seq<Byte>, h: nat, w: nat, fs: seq<Frame>, number: Byte)
    requires Queued(mem, h, w, fs) && |mem| <= 254
    ensures var f := Frame(number, seq(254, _ => 0));
      Free(mem, w, Required(|f.params|)) && forall k :: 0 <= k < |mem| ==> AfterFrame(mem, w, f)[k] == 0
  {
    var f, n := Frame(number, seq(254, _ => 0)), |mem|;
    forall k: nat | k < n ensures AfterFrame(mem, w, f)[k] == 0 {
      var j := Reached(Wrapped(w, 256 - n, n), k, n);
      Around(w, 256 - n, j, n);
      LastWriteStays(mem, w, Encoded(f), 256, 256 - n + j);
    }
  }

  lemma Around(w: nat, a: nat, j: nat, n: nat)
    requires n > 0
    ensures Wrapped(Wrapped(w, a, n), j, n) == Wrapped(w, a + j, n)
  {
    var q, r := (w + a) / n, (w + a) % n;
    var q', r' := (r + j) / n, (r + j) % n;
    AddTurns(n, q, r, j, q', r');
    ModIs(w + a + j, n, q + q', r');
  }

  lemma AddTurns(n: nat, q: nat, r: nat, j: nat, q': nat, r': nat)
    requires r + j == q' * n + r'
    ensures q * n + r + j == (q + q') * n + r'
  {}

  /** In a longer ring that is full, the oldest frame is overwritten by one of 254
      parameters. */
  lemma OldestOverwritten(mem: seq<Byte>, h: nat, w: nat, fs: seq<Frame>, f: Frame)
    requires Queued(mem, h, w, fs) && |Flat(fs)| == |mem| >= 256 && |f.params| == 254
    ensures Free(mem, w, Required(|f.params|))
    ensures AfterFrame(mem, w, f)[h] == f.number && AfterFrame(mem, w, f)[Wrapped(h, 1, |mem|)] == 254
  {
    WrapIs(h, |mem|, |mem|);
    WrapIs(h, 0, |mem|);
    hide Wrapped;
    LastWriteStays(mem, w, Encoded(f), 256, 0);
    LastWriteStays(mem, w, Encoded(f), 256, 1);
  }

  /** On the smaller ring, empty, a frame of nine parameters is accepted, and its last
      parameter stands where the consumer looks for a number. */
  lemma LongFrameOnEmptyRing(params: seq<Byte>, number: Byte)
    requires |params| == FLOW_CONTROLLED_LEN - 1
    ensures var mem, f := seq(FLOW_CONTROLLED_LEN, _ => 0), Frame(number, params);
      && Queued(mem, 0, 0, []) && Free(mem, 0, Required(|params|))
      && AfterFrame(mem, 0, f)[0] == params[FLOW_CONTROLLED_LEN - 2]
  {
    var mem, f := seq(FLOW_CONTROLLED_LEN, _ => 0), Frame(number, params);
    FlatOfNone();
    assert Wrapped(0, FLOW_CONTROLLED_LEN, FLOW_CONTROLLED_LEN) == 0;
    LastWriteStays(mem, 0, Encoded(f), FLOW_CONTROLLED_LEN + 1, FLOW_CONTROLLED_LEN);
  }
}

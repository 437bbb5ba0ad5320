/** send_gambit_int as rtlib.cpp writes it, and a consumer that takes whole frames,
    oldest first, and zeroes them. */
module InterruptSender {
  import opened Products
  import opened Wrappers
  import opened InterruptRing

  lemma NextCell(w: nat, i: nat, n: nat)
    requires n > 0
    ensures (Wrapped(w, i, n) + 1) % n == Wrapped(w, i + 1, n)
  {
    var q, r := (w + i) / n, (w + i) % n;
    assert w + i == q * n + r;
    if r + 1 < n {
      ModIs(w + i + 1, n, q, r + 1);
      ModIs(r + 1, n, 0, r + 1);
    } else {
      assert (q + 1) * n == q * n + n;
      ModIs(w + i + 1, n, q + 1, 0);
      ModIs(r + 1, n, 1, 0);
    }
  }

  class Ring {
    const mem: array<Byte>
    var writer: nat                       // the flow_..._writer variable
    var reader: nat                       // the consumer's own index
    ghost var frames: seq<Frame>          // queued
    ghost var accepted: seq<Frame>
    ghost var delivered: seq<Frame>

    /** The queue is what the memory holds, and what was accepted is what was
        delivered and what is queued, in order. */
    ghost predicate Valid()
      reads this, mem
    {
      && mem.Length > 0 && Holds(mem[..], reader, frames)
      && writer == Wrapped(reader, |Flat(frames)|, mem.Length)
      && accepted == delivered + frames
    }

    constructor (size: nat)
      requires size > 0
      ensures fresh(mem) && mem.Length == size && Valid() && frames == [] && accepted == [] && delivered == []
    {
      mem := new Byte[size](_ => 0);
      writer, reader, frames, accepted, delivered := 0, 0, [], [], [];
      new;
      FlatOfNone();
      WrapIs(0, 0, size);
    }

    /** The scan over the cells a frame needs. */
    method Scan(r: nat) returns (free: bool)
      requires mem.Length > 0 && writer < mem.Length
      ensures free <==> Free(mem[..], writer, r)
    {
      hide Wrapped;
      var scout, i: nat := writer, 0;
      WrapIs(writer, 0, mem.Length);
      while i < r
        invariant i <= r && scout == Wrapped(writer, i, mem.Length)
        invariant Free(mem[..], writer, i)
      {
        if mem[scout] != 0 {
          assert mem[..][Wrapped(writer, i, mem.Length)] != 0;
          return false;
        }
        NextCell(writer, i, mem.Length);
        scout := (scout + 1) % mem.Length;
        i := i + 1;
      }
      return true;
    }

    /** The writes of a frame, one cell after the other around the ring. */
    method WriteFrame(number: Byte, params: seq<Byte>)
      requires mem.Length > 0 && writer < mem.Length && |params| <= 255
      modifies mem
      ensures mem[..] == AfterFrame(old(mem[..]), writer, Frame(number, params))
    {
      ghost var before, s := mem[..], Encoded(Frame(number, params));
      var n := mem.Length;
      mem[writer % n] := number;
      mem[(writer + 1) % n] := |params|;
      assert mem[..] == Poured(before, writer, s, 1)[Wrapped(writer, 1, n) := s[1]];
      var i: nat := 0;
      while i < |params|
        invariant i <= |params| && mem[..] == Poured(before, writer, s, 2 + i)
      {
        mem[(writer + 2 + i) % n] := params[i];
        assert mem[..] == Poured(before, writer, s, 2 + i)[Wrapped(writer, 2 + i, n) := s[2 + i]];
        i := i + 1;
      }
    }

    /** send_gambit_int, when the bridge is up: the frame is written if the scan lets it
        through, and otherwise nothing changes. The queue is kept exactly in the cases
        of KeepsQueue. */
    method Send(number: Byte, params: seq<Byte>) returns (ok: bool)
      requires mem.Length > 0 && writer < mem.Length && |params| <= 255
      modifies mem, this
      ensures ok <==> Free(old(mem[..]), old(writer), Required(|params|))
      ensures var f := Frame(number, params);
        && mem[..] == (if ok then AfterFrame(old(mem[..]), old(writer), f) else old(mem[..]))
        && writer == (if ok then Wrapped(old(writer), Required(|params|), mem.Length) else old(writer))
        && frames == old(frames) + (if ok then [f] else [])
        && accepted == old(accepted) + (if ok then [f] else [])
        && delivered == old(delivered) && reader == old(reader)
      ensures old(Valid()) && number != 0 ==> (Valid() <==> KeepsQueue(mem.Length, old(frames), |params|))
      ensures old(Valid()) && KeepsQueue(mem.Length, old(frames), |params|) ==>
        (ok <==> Fits(mem.Length, old(frames), |params|))
    {
      hide Holds, Wrapped, Flat, Free, AfterFrame;
      ghost var f, valid := Frame(number, params), Valid();
      if valid {
        HoldsBounds(mem[..], reader, frames);
        AcceptedExactlyWhen(mem[..], reader, frames, |params|);
        if number != 0 { SendKeepsQueueExactlyWhen(mem[..], reader, writer, frames, f); }
      }
      var required := (2 + |params|) % 256;
      ok := Scan(required);
      if ok {
        WriteFrame(number, params);
        writer := (writer + required) % mem.Length;
        SameCell(old(writer), required, mem.Length);
        frames, accepted := frames + [f], accepted + [f];
      }
    }

    method ReadParameters(size: nat) returns (params: seq<Byte>)
      requires Valid() && frames != [] && size == |frames[0].params|
      ensures params == frames[0].params
    {
      hide Wrapped, Flat;
      params := [];
      var i: nat := 0;
      while i < size
        invariant i <= size && params == frames[0].params[..i]
      {
        ParameterAt(mem[..], reader, frames, i);
        params := params + [mem[(reader + 2 + i) % mem.Length]];
        i := i + 1;
      }
    }

    /** The consumer: the oldest frame is delivered intact. */
    method Receive() returns (f: Option<Frame>)
      requires Valid()
      modifies mem, this
      ensures Valid() && (f.None? <==> old(frames) == [])
      ensures f.Some? ==> old(frames) == [f.value] + frames && delivered == old(delivered) + [f.value]
      ensures accepted == old(accepted)
    {
      hide Holds, Wrapped, Flat, WrittenAt;
      HeadSays(mem[..], reader, frames);
      if mem[reader] == 0 { return None; }
      var number: Byte, size: nat := mem[reader], mem[(reader + 1) % mem.Length];
      var params := ReadParameters(size);
      f := Some(Frame(number, params));
      ghost var before, fs := mem[..], frames;
      ZeroCells(2 + size);
      ZeroingDequeues(before, mem[..], reader, fs);
      SameCell(reader, 2 + size, mem.Length);
      reader := (reader + (2 + size)) % mem.Length;
      frames, delivered := fs[1..], delivered + [f.value];
    }

    method ZeroCells(r: nat)
      requires mem.Length > 0 && reader < mem.Length && r <= mem.Length
      modifies mem
      ensures WrittenAt(mem[..], old(mem[..]), reader, seq(r, _ => 0))
    {
      ghost var before, s := mem[..], seq(r, _ => 0);
      var i: nat := 0;
      while i < r
        invariant i <= r && mem[..] == Poured(before, reader, s, i)
      {
        mem[(reader + i) % mem.Length] := 0;
        assert mem[..] == Poured(before, reader, s, i)[Wrapped(reader, i, mem.Length) := s[i]];
        i := i + 1;
      }
      PouredIsWritten(before, reader, s);
    }
  }

  lemma SameCell(w: nat, r: nat, n: nat)
    requires n > 0
    ensures (w + r) % n == Wrapped(w, r, n)
  {}

  /** What the consumer sees at its index. */
  lemma HeadSays(mem: seq<Byte>, h: nat, fs: seq<Frame>)
    requires Holds(mem, h, fs)
    ensures h < |mem| && (mem[h] == 0 <==> fs == [])
    ensures fs != [] ==> mem[h] == fs[0].number && mem[(h + 1) % |mem|] == |fs[0].params| && 2 + |fs[0].params| <= |mem|
  {
    WrapIs(h, 0, |mem|);
    assert mem[Wrapped(h, 0, |mem|)] == mem[h];
    if fs == [] {
      FlatOfNone();
    } else {
      FlatSplits(fs);
      assert GoodFrame(fs[0]);
      assert mem[Wrapped(h, 1, |mem|)] == Flat(fs)[1];
    }
  }

  lemma ParameterAt(mem: seq<Byte>, h: nat, fs: seq<Frame>, i: nat)
    requires Holds(mem, h, fs) && fs != [] && i < |fs[0].params|
    ensures mem[(h + 2 + i) % |mem|] == fs[0].params[i]
  {
    FlatSplits(fs);
    assert mem[Wrapped(h, 2 + i, |mem|)] == Flat(fs)[2 + i];
  }
}

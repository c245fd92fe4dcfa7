/** quic-go-bbr/internal/wire/stream_frame.go, and the accounting of the bytes that STREAM frames carry. */
module StreamFrames {
  import opened Protocol
  import VarintLen

  /** protocol.MaxPacketBufferSize, the capacity of a pooled frame. */
  const MAX_PACKET_BUFFER_SIZE: nat := 1452

  /** A STREAM frame of one stream; the length field is present, as it is in every frame that a send stream keeps. */
  datatype StreamFrame = StreamFrame(offset: nat, data: seq<byte>, fin: bool) {
    function End(): nat {
      offset + |data|
    }
  }

  ghost predicate Has(f: StreamFrame, x: nat) {
    f.offset <= x < f.End()
  }

  function HeaderLen(streamId: nat, offset: nat): nat
    requires streamId <= MAX_BYTE_COUNT && offset <= MAX_BYTE_COUNT
  {
    1 + VarintLen.Len(streamId) + if offset != 0 then VarintLen.Len(offset) else 0
  }

  function Length(streamId: nat, f: StreamFrame): nat
    requires streamId <= MAX_BYTE_COUNT && f.End() <= MAX_BYTE_COUNT
  {
    HeaderLen(streamId, f.offset) + VarintLen.Len(|f.data|) + |f.data|
  }

  /** The most data a frame at `offset` can have in `maxSize` bytes. */
  function MaxDataLen(streamId: nat, offset: nat, maxSize: nat): (n: nat)
    requires streamId <= MAX_BYTE_COUNT && offset <= MAX_BYTE_COUNT && maxSize <= MAX_BYTE_COUNT
    ensures n <= maxSize
    ensures 0 < n && maxSize <= VarintLen.MAX_VARINT2 ==> HeaderLen(streamId, offset) + VarintLen.Len(n) + n <= maxSize
  {
    var headerLen := HeaderLen(streamId, offset) + 1;
    if headerLen > maxSize then 0
    else
      var n := maxSize - headerLen;
      if VarintLen.Len(n) != 1 then n - 1 else n
  }

  /** A frame that does not fit is split into a shorter one and a non-empty rest, as long as frames fit a packet buffer.
      */
  lemma SplitLeavesRest(streamId: nat, f: StreamFrame, maxSize: nat)
    requires streamId <= MAX_BYTE_COUNT && f.End() <= MAX_BYTE_COUNT && maxSize <= MAX_BYTE_COUNT
    requires maxSize < Length(streamId, f) && |f.data| <= MAX_PACKET_BUFFER_SIZE
    ensures MaxDataLen(streamId, f.offset, maxSize) == 0 || MaxDataLen(streamId, f.offset, maxSize) < |f.data|
  {
  }

  /** Exactly one of the frames carries byte `x`. */
  ghost predicate Once(frames: multiset<StreamFrame>, x: nat) {
    exists f :: f in frames && Has(f, x) && frames[f] == 1 && (forall g :: g in frames && Has(g, x) ==> g == f)
  }

  /** The frames agree with the bytes sent so far. */
  ghost predicate Truthful(frames: multiset<StreamFrame>, sent: seq<byte>) {
    forall f :: f in frames ==>
      f.End() <= |sent| && f.data == sent[f.offset..f.End()] && |f.data| <= MAX_PACKET_BUFFER_SIZE
  }

  /** Every byte below `limit` is in exactly one frame. */
  ghost predicate Delivering(frames: multiset<StreamFrame>, limit: nat, sent: seq<byte>) {
    Truthful(frames, sent) && limit <= |sent| && (forall x: nat :: x < limit ==> Once(frames, x))
  }

  /** The FIN is in exactly one frame, which ends the stream. */
  ghost predicate FinOnce(frames: multiset<StreamFrame>, end: nat) {
    exists f ::
      && f in frames && f.fin && frames[f] == 1 && f.End() == end
      && (forall g :: g in frames && g.fin ==> g == f)
  }

  ghost predicate NoFin(frames: multiset<StreamFrame>) {
    forall f :: f in frames ==> !f.fin
  }

  /** Sending the next bytes of the stream in a new frame. */
  lemma SendNew(frames: multiset<StreamFrame>, limit: nat, sent: seq<byte>, f: StreamFrame)
    requires Delivering(frames, limit, sent)
    requires f.offset == |sent| && |f.data| <= MAX_PACKET_BUFFER_SIZE && (f.data != [] ==> limit == |sent|)
    ensures Delivering(frames + multiset{f}, limit + |f.data|, sent + f.data)
  {
    var frames', sent' := frames + multiset{f}, sent + f.data;
    forall x: nat | x < limit + |f.data|
      ensures Once(frames', x)
    {
      if x < limit {
        assert Once(frames, x);
        var g :| g in frames && Has(g, x) && frames[g] == 1 && (forall h :: h in frames && Has(h, x) ==> h == g);
        assert g in frames' && Has(g, x) && frames'[g] == 1;
      } else {
        assert f in frames' && Has(f, x) && f !in frames;
      }
    }
  }

  lemma SendFin(frames: multiset<StreamFrame>, f: StreamFrame)
    requires NoFin(frames)
    ensures if f.fin then FinOnce(frames + multiset{f}, f.End()) else NoFin(frames + multiset{f})
  {
    if f.fin {
      assert f in frames + multiset{f} && (frames + multiset{f})[f] == 1;
    }
  }

  function Prefix(f: StreamFrame, n: nat): StreamFrame
    requires n <= |f.data|
  {
    StreamFrame(f.offset, f.data[..n], false)
  }

  /** What is left of a frame; the FIN stays with the rest. */
  function Rest(f: StreamFrame, n: nat): StreamFrame
    requires n <= |f.data|
  {
    StreamFrame(f.offset + n, f.data[n..], f.fin)
  }

  function Split(frames: multiset<StreamFrame>, f: StreamFrame, n: nat): multiset<StreamFrame>
    requires n <= |f.data|
  {
    frames - multiset{f} + multiset{Prefix(f, n)} + multiset{Rest(f, n)}
  }

  /** Splitting a frame in two. */
  lemma SplitFrame(frames: multiset<StreamFrame>, limit: nat, sent: seq<byte>, f: StreamFrame, n: nat)
    requires Delivering(frames, limit, sent) && f in frames && 0 < n < |f.data|
    ensures Delivering(Split(frames, f, n), limit, sent)
  {
    assert Truthful(Split(frames, f, n), sent) by { SplitTruthful(frames, sent, f, n); }
    forall x: nat | x < limit
      ensures Once(Split(frames, f, n), x)
    {
      SplitOnce(frames, f, n, x);
    }
  }

  lemma SplitTruthful(frames: multiset<StreamFrame>, sent: seq<byte>, f: StreamFrame, n: nat)
    requires Truthful(frames, sent) && f in frames && 0 < n < |f.data|
    ensures Truthful(Split(frames, f, n), sent)
  {
    hide Split;
    SplitMembers(frames, f, n);
    assert f.data == sent[f.offset..f.End()];
    assert Prefix(f, n).data == sent[f.offset..f.offset + n];
    assert Rest(f, n).data == sent[f.offset + n..f.End()];
  }

  lemma SplitFin(frames: multiset<StreamFrame>, f: StreamFrame, n: nat, end: nat)
    requires f in frames && 0 < n < |f.data|
    ensures NoFin(frames) ==> NoFin(Split(frames, f, n))
    ensures FinOnce(frames, end) ==> FinOnce(Split(frames, f, n), end)
  {
    hide FinOnce;
    if FinOnce(frames, end) {
      SplitFinOnce(frames, f, n, end);
    }
    SplitMembers(frames, f, n);
  }

  lemma SplitMembers(frames: multiset<StreamFrame>, f: StreamFrame, n: nat)
    requires f in frames && 0 < n < |f.data|
    ensures forall g :: g in Split(frames, f, n) ==> g in frames || g == Prefix(f, n) || g == Rest(f, n)
  {
  }

  lemma SplitFinOnce(frames: multiset<StreamFrame>, f: StreamFrame, n: nat, end: nat)
    requires f in frames && 0 < n < |f.data| && FinOnce(frames, end)
    ensures FinOnce(Split(frames, f, n), end)
  {
    hide Split;
    var g :| g in frames && g.fin && frames[g] == 1 && g.End() == end && (forall h :: h in frames && h.fin ==> h == g);
    var rest := Rest(f, n);
    SplitMembers(frames, f, n);
    SplitCount(frames, f, n, f);
    if g == f {
      SplitCount(frames, f, n, rest);
      assert rest !in frames;
      FinIs(Split(frames, f, n), rest, end);
    } else {
      SplitCount(frames, f, n, g);
      FinIs(Split(frames, f, n), g, end);
    }
  }

  lemma FinIs(frames: multiset<StreamFrame>, g: StreamFrame, end: nat)
    requires g in frames && g.fin && frames[g] == 1 && g.End() == end && (forall h :: h in frames && h.fin ==> h == g)
    ensures FinOnce(frames, end)
  {
  }

  lemma SplitCount(frames: multiset<StreamFrame>, f: StreamFrame, n: nat, g: StreamFrame)
    requires f in frames && 0 < n < |f.data|
    ensures Split(frames, f, n)[g] ==
            frames[g] - (if g == f then 1 else 0) + (if g == Prefix(f, n) then 1 else 0)
            + (if g == Rest(f, n) then 1 else 0)
  {
    hide Prefix, Rest;
  }

  lemma SplitOnce(frames: multiset<StreamFrame>, f: StreamFrame, n: nat, x: nat)
    requires Once(frames, x) && f in frames && 0 < n < |f.data|
    ensures Once(Split(frames, f, n), x)
  {
    var first, rest := Prefix(f, n), Rest(f, n);
    assert Has(f, x) <==> Has(first, x) || Has(rest, x);
    assert !(Has(first, x) && Has(rest, x)) && first != f && rest != f;
    hide Has;
    Exchange(frames, f, first, rest, x);
  }

  /** Exchanging a frame for two that share its bytes. */
  lemma Exchange(frames: multiset<StreamFrame>, f: StreamFrame, first: StreamFrame, rest: StreamFrame, x: nat)
    requires Once(frames, x) && f in frames && first != f && rest != f
    requires Has(f, x) <==> Has(first, x) || Has(rest, x)
    requires !(Has(first, x) && Has(rest, x))
    ensures Once(frames - multiset{f} + multiset{first} + multiset{rest}, x)
  {
    hide Has;
    var g :| g in frames && Has(g, x) && frames[g] == 1 && (forall h :: h in frames && Has(h, x) ==> h == g);
    var frames' := frames - multiset{f} + multiset{first} + multiset{rest};
    if g != f {
      assert frames'[g] == 1;
    } else {
      var g' := if Has(first, x) then first else rest;
      assert g' !in frames && frames'[g'] == 1;
      assert frames'[f] == 0;
    }
  }

  /** What a reset with reliable size `r` keeps of a frame: nothing, or the part below `r`. */
  function Below(f: StreamFrame, r: nat): seq<StreamFrame> {
    if f.offset >= r then []
    else if f.End() <= r then [f]
    else [f.(data := f.data[..r - f.offset])]
  }

  function AllBelow(frames: seq<StreamFrame>, r: nat): seq<StreamFrame> {
    if frames == [] then [] else Below(frames[0], r) + AllBelow(frames[1..], r)
  }

  lemma {:induction false} AllBelowSnoc(frames: seq<StreamFrame>, more: seq<StreamFrame>, r: nat)
    requires |more| <= 1
    ensures AllBelow(frames + more, r) == AllBelow(frames, r) + if more == [] then [] else Below(more[0], r)
    decreases |frames|
  {
    hide Below;
    if frames == [] {
      assert frames + more == more;
    } else {
      AllBelowSnoc(frames[1..], more, r);
      assert (frames + more)[1..] == frames[1..] + more;
      assert (frames + more)[0] == frames[0];
    }
  }

  lemma NothingBelow(frames: seq<StreamFrame>, r: nat)
    ensures frames == [] ==> AllBelow(frames, r) == []
  {
  }

  /** Dropping what lies above `r` from one frame does not touch the bytes below. */
  lemma TruncateFrame(frames: multiset<StreamFrame>, limit: nat, sent: seq<byte>, f: StreamFrame, r: nat)
    requires Delivering(frames, limit, sent) && f in frames && limit <= r
    ensures Delivering(frames - multiset{f} + multiset(Below(f, r)), limit, sent)
  {
    hide Once;
    var frames' := frames - multiset{f} + multiset(Below(f, r));
    assert forall g :: g in frames' ==> g in frames || g in Below(f, r);
    BelowTruthful(f, r, sent);
    forall x: nat | x < limit
      ensures Once(frames', x)
    {
      TruncateOnce(frames, f, r, x);
    }
  }

  lemma BelowTruthful(f: StreamFrame, r: nat, sent: seq<byte>)
    requires f.End() <= |sent| && f.data == sent[f.offset..f.End()]
    ensures forall g :: g in Below(f, r) ==>
              g.End() <= |sent| && g.data == sent[g.offset..g.End()] && |g.data| <= |f.data|
  {
    if f.offset < r < f.End() {
      var g := f.(data := f.data[..r - f.offset]);
      assert Below(f, r) == [g] && g.End() == r;
      assert f.data[..r - f.offset] == sent[f.offset..r];
    }
  }

  lemma TruncateOnce(frames: multiset<StreamFrame>, f: StreamFrame, r: nat, x: nat)
    requires Once(frames, x) && f in frames && x < r
    ensures Once(frames - multiset{f} + multiset(Below(f, r)), x)
  {
    if f.offset < r < f.End() {
      var f' := f.(data := f.data[..r - f.offset]);
      assert multiset(Below(f, r)) == multiset{f'};
      assert Has(f, x) <==> Has(f', x);
      ReplaceOnce(frames, f, f', x);
    } else if f.offset >= r {
      assert multiset(Below(f, r)) == multiset{} && !Has(f, x);
      DropOnce(frames, f, x);
    } else {
      assert multiset(Below(f, r)) == multiset{f};
      assert frames - multiset{f} + multiset(Below(f, r)) == frames;
    }
  }

  lemma ReplaceOnce(frames: multiset<StreamFrame>, f: StreamFrame, f': StreamFrame, x: nat)
    requires Once(frames, x) && f in frames && f' != f && (Has(f, x) <==> Has(f', x))
    ensures Once(frames - multiset{f} + multiset{f'}, x)
  {
    hide Has;
    var frames' := frames - multiset{f} + multiset{f'};
    var g :| g in frames && Has(g, x) && frames[g] == 1 && (forall h :: h in frames && Has(h, x) ==> h == g);
    var g' := if g == f then f' else g;
    assert Has(g', x) && frames'[g'] == 1;
  }

  lemma DropOnce(frames: multiset<StreamFrame>, f: StreamFrame, x: nat)
    requires Once(frames, x) && f in frames && !Has(f, x)
    ensures Once(frames - multiset{f} + multiset{}, x)
  {
    hide Has;
    var frames' := frames - multiset{f} + multiset{};
    var g :| g in frames && Has(g, x) && frames[g] == 1 && (forall h :: h in frames && Has(h, x) ==> h == g);
    assert frames'[g] == 1;
  }

  lemma {:induction false} TruncateAll(base: multiset<StreamFrame>, frames: seq<StreamFrame>, limit: nat,
                                       sent: seq<byte>, r: nat)
    requires Delivering(base + multiset(frames), limit, sent) && limit <= r
    ensures Delivering(base + multiset(AllBelow(frames, r)), limit, sent)
    decreases |frames|
  {
    if frames == [] {
    } else {
      var f, rest := frames[0], frames[1..];
      assert frames == [f] + rest;
      TruncateFrame(base + multiset(frames), limit, sent, f, r);
      var base' := base + multiset(Below(f, r));
      assert base + multiset(frames) - multiset{f} + multiset(Below(f, r)) == base' + multiset(rest);
      TruncateAll(base', rest, limit, sent, r);
      assert base' + multiset(AllBelow(rest, r)) == base + multiset(AllBelow(frames, r));
    }
  }
}

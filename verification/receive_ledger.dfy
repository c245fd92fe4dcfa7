/** What a receive stream has handed to its reader, compared with what has arrived. */
module ReceiveLedger {
  import opened Protocol
  import opened Reassembly

  /** The part of the flow controller that guards the final size: the highest offset received, and whether it is final.
      */
  datatype Flow = Flow(highest: nat, final: bool)

  /** UpdateHighestReceived. `violation` says that the offset exceeds the flow control window. On an error the
      connection is closed. */
  function Update(flow: Flow, offset: nat, final: bool, violation: bool): Option<Flow> {
    if flow.final && ((final && offset != flow.highest) || offset > flow.highest) then None
    else if offset == flow.highest then Some(flow.(final := flow.final || final))
    else if offset < flow.highest then if final then None else Some(flow)
    else if violation then None
    else Some(Flow(offset, flow.final || final))
  }

  /** What was read so far, the frame that is being read, and what is known about the end of the stream. */
  datatype Reader = Reader(
    readBytes: seq<byte>, current: Option<seq<byte>>, posInFrame: nat, isLast: bool, finalOffset: nat, flow: Flow)

  /** The unread rest of the current frame. */
  function Rest(r: Reader): seq<byte> {
    if r.current.Some? && r.posInFrame <= |r.current.value| then r.current.value[r.posInFrame..] else []
  }

  /** The bytes that the frame sorter has delivered are those that were read, followed by the rest of the current frame;
      and once the current frame is the last one, that is the whole stream. */
  ghost predicate Faithful(r: Reader, h: History) {
    && (r.current.Some? ==> r.posInFrame <= |r.current.value| && r.current.value != [])
    && h.delivered == r.readBytes + Rest(r)
    && (r.isLast ==> r.finalOffset < MAX_BYTE_COUNT && |h.delivered| == r.finalOffset)
    && (r.finalOffset < MAX_BYTE_COUNT ==> r.flow == Flow(r.finalOffset, true))
    && (forall x: nat, b: byte :: (x, b) in h.offered ==> x < r.flow.highest)
    && Copied(h.offered, 0, h.delivered)
  }

  /** The reader is at the end of the stream. */
  predicate AtEnd(r: Reader) {
    r.isLast && r.current.None?
  }

  function Dequeued(r: Reader, data: seq<byte>, delivered: nat, cancelledRemotely: bool): Reader {
    r.(current := if data == [] then None else Some(data), posInFrame := 0,
       isLast := delivered >= r.finalOffset && !cancelledRemotely)
  }

  lemma DequeueFaithful(r: Reader, h: History, h': History, data: seq<byte>, cancelledRemotely: bool)
    requires Faithful(r, h) && Rest(r) == []
    requires h' == h.(delivered := h.delivered + data) && |h'.delivered| < MAX_BYTE_COUNT
    requires Copied(h'.offered, 0, h'.delivered)
    ensures Faithful(Dequeued(r, data, |h'.delivered|, cancelledRemotely), h')
  {
    var r' := Dequeued(r, data, |h'.delivered|, cancelledRemotely);
    assert Rest(r') == data;
    if r'.isLast && |h'.delivered| > 0 {
      var k := |h'.delivered| - 1;
      assert (0 + k, h'.delivered[k]) in h'.offered;
    }
  }

  function Consumed(r: Reader, m: nat): Reader
    requires m <= |Rest(r)|
  {
    r.(readBytes := r.readBytes + Rest(r)[..m], posInFrame := r.posInFrame + m)
  }

  lemma ConsumeFaithful(r: Reader, h: History, m: nat)
    requires Faithful(r, h) && m <= |Rest(r)|
    ensures Faithful(Consumed(r, m), h) && Rest(Consumed(r, m)) == Rest(r)[m..]
  {
    assert Rest(r) == Rest(r)[..m] + Rest(r)[m..];
    if r.current.Some? {
      assert Rest(Consumed(r, m)) == Rest(r)[m..];
    }
  }

  lemma FinishFaithful(r: Reader, h: History)
    requires Faithful(r, h) && Rest(r) == []
    ensures Faithful(r.(current := None), h)
  {
  }

  lemma FrameFaithful(r: Reader, h: History, data: seq<byte>, offset: nat, fin: bool, violation: bool)
    requires Faithful(r, h) && offset + |data| < MAX_BYTE_COUNT && Update(r.flow, offset + |data|, fin, violation).Some?
    ensures var flow := Update(r.flow, offset + |data|, fin, violation).value;
            var r' := r.(flow := flow, finalOffset := if fin then offset + |data| else r.finalOffset);
            Faithful(r', h) && Faithful(r', h.(offered := h.offered + BytesAt(data, offset)))
  {
  }

  lemma ResetFaithful(r: Reader, h: History, finalSize: nat, violation: bool)
    requires Faithful(r, h) && finalSize < MAX_BYTE_COUNT && Update(r.flow, finalSize, true, violation).Some?
    ensures Faithful(r.(flow := Update(r.flow, finalSize, true, violation).value, finalOffset := finalSize), h)
  {
  }

  /** What was read is a prefix of the stream; at the end of the stream it is all of it. */
  lemma ReadsPrefix(r: Reader, h: History, stream: nat -> byte)
    requires Faithful(r, h) && (forall x: nat, b: byte :: (x, b) in h.offered ==> b == stream(x))
    ensures forall k :: 0 <= k < |r.readBytes| ==> r.readBytes[k] == stream(k)
    ensures AtEnd(r) ==> |r.readBytes| == r.finalOffset
  {
    forall k | 0 <= k < |r.readBytes|
      ensures r.readBytes[k] == stream(k)
    {
      assert (0 + k, h.delivered[k]) in h.offered && h.delivered[k] == r.readBytes[k];
    }
  }

  lemma DeliveredBelowFinal(r: Reader, h: History)
    requires Faithful(r, h)
    ensures |r.readBytes| + |Rest(r)| == |h.delivered| <= r.flow.highest
    ensures r.finalOffset < MAX_BYTE_COUNT ==> |h.delivered| <= r.finalOffset
  {
    if |h.delivered| > 0 {
      var k := |h.delivered| - 1;
      assert (0 + k, h.delivered[k]) in h.offered;
    }
  }

  /** Bytes copied from the rest of the current frame and then from the queue continue what was read. */
  lemma PeekFaithful(r: Reader, h: History, n: nat, more: seq<byte>)
    requires Faithful(r, h) && n <= |Rest(r)| && (more != [] ==> n == |Rest(r)|)
    requires Copied(h.offered, |h.delivered|, more)
    ensures Copied(h.offered, |r.readBytes|, Rest(r)[..n] + more)
  {
    var b, pos := Rest(r)[..n] + more, |r.readBytes|;
    forall i | 0 <= i < |b|
      ensures (pos + i, b[i]) in h.offered
    {
      if i < n {
        assert h.delivered[pos + i] == b[i];
        assert (0 + (pos + i), h.delivered[pos + i]) in h.offered;
      } else {
        assert b[i] == more[i - n];
        assert (|h.delivered| + (i - n), more[i - n]) in h.offered;
      }
    }
  }

  /** For a peer that never sends different bytes for the same offset, what was peeked is what is read later. */
  lemma PeekedIsRead(peeked: seq<byte>, pos: nat, before: set<(nat, byte)>, r: Reader, h: History)
    requires Copied(before, pos, peeked) && before <= h.offered && Faithful(r, h)
    requires forall x: nat, b: byte, b': byte :: (x, b) in h.offered && (x, b') in h.offered ==> b == b'
    ensures forall i :: 0 <= i < |peeked| && pos + i < |r.readBytes| ==> r.readBytes[pos + i] == peeked[i]
  {
    forall i | 0 <= i < |peeked| && pos + i < |r.readBytes|
      ensures r.readBytes[pos + i] == peeked[i]
    {
      assert (0 + (pos + i), h.delivered[pos + i]) in h.offered;
    }
  }
}

/** What a send stream owes its peer: the bytes written, sent, in flight and acknowledged. */
module SendLedger {
  import opened Protocol
  import opened StreamFrames

  datatype ResetFrame = ResetFrame(finalSize: nat, errorCode: nat, reliableSize: nat)

  /** The state of the stream that decides which bytes still have to be delivered, and the history:
      everything written and sent, the frames acknowledged and the frames in flight. */
  datatype View = View(
    cancelled: bool, shutdown: bool, reliable: nat, finishedWriting: bool, finSent: bool,
    writeOffset: nat, next: Option<StreamFrame>, pending: seq<byte>, queue: seq<StreamFrame>,
    written: seq<byte>, sent: seq<byte>, acked: multiset<StreamFrame>, inFlight: seq<StreamFrame>)

  function Buffered(next: Option<StreamFrame>): seq<byte> {
    match next
    case None => []
    case Some(f) => f.data
  }

  /** All the frames sent so far: acknowledged, in flight or waiting to be sent again. */
  function Frames(v: View): multiset<StreamFrame> {
    v.acked + multiset(v.inFlight) + multiset(v.queue)
  }

  /** The bytes below this offset are delivered reliably. */
  function Limit(v: View): nat {
    if v.shutdown then 0
    else if !v.cancelled then v.writeOffset
    else if v.reliable < v.writeOffset then v.reliable else v.writeOffset
  }

  ghost predicate NextOk(v: View) {
    v.next.Some? ==>
      v.next.value.offset == v.writeOffset && 0 < |v.next.value.data| <= MAX_PACKET_BUFFER_SIZE && !v.next.value.fin
  }

  /** What holds as long as the stream is neither cancelled nor shut down: nothing written is missing, and the FIN is
      the last thing sent. */
  ghost predicate Live(v: View) {
    && v.written == v.sent + Buffered(v.next) + v.pending
    && v.reliable <= v.writeOffset + |Buffered(v.next)|
    && (v.finSent ==> v.finishedWriting && v.next == None && v.pending == [] && FinOnce(Frames(v), v.writeOffset))
    && (!v.finSent ==> NoFin(Frames(v)))
  }

  /** A cancelled stream still holds the reliable bytes that it has not sent. */
  ghost predicate Cancelled(v: View) {
    v.reliable > v.writeOffset ==> v.next.Some? && v.next.value.End() >= v.reliable
  }

  ghost predicate Conserving(v: View) {
    && |v.sent| == v.writeOffset
    && Delivering(Frames(v), Limit(v), v.sent)
    && NextOk(v)
    && (!v.shutdown && !v.cancelled ==> Live(v))
    && (!v.shutdown && v.cancelled ==> Cancelled(v))
  }

  /** The completion of a stream that was not cancelled means that every byte written and the FIN were acknowledged. */
  lemma NothingOutstanding(v: View)
    requires Conserving(v) && !v.cancelled && !v.shutdown && v.finSent && v.inFlight == [] && v.queue == []
    ensures v.sent == v.written
    ensures Delivering(v.acked, |v.written|, v.written) && FinOnce(v.acked, |v.written|)
  {
    assert Frames(v) == v.acked;
  }

  /** A cancelled stream that has nothing outstanding has delivered all reliable bytes. */
  lemma ReliableDelivered(v: View)
    requires Conserving(v) && v.cancelled && !v.shutdown && v.next == None && v.inFlight == [] && v.queue == []
    ensures v.reliable <= |v.sent| && Delivering(v.acked, v.reliable, v.sent)
  {
    assert Frames(v) == v.acked;
  }

  lemma WriteStarts(v: View, p: seq<byte>)
    requires Conserving(v) && !v.finishedWriting && v.pending == []
    ensures Conserving(v.(pending := p, written := v.written + p))
  {
    assert Frames(v.(pending := p, written := v.written + p)) == Frames(v);
  }

  function Buffer(v: View): Option<StreamFrame> {
    match v.next
    case None => Some(StreamFrame(v.writeOffset, v.pending, false))
    case Some(f) => Some(f.(data := f.data + v.pending))
  }

  lemma WriteBuffers(v: View)
    requires Conserving(v) && |Buffered(v.next)| + |v.pending| <= MAX_PACKET_BUFFER_SIZE && v.pending != []
    ensures Conserving(v.(next := Buffer(v), pending := []))
  {
    var v' := v.(next := Buffer(v), pending := []);
    assert Frames(v') == Frames(v);
    assert v.sent + Buffered(v.next) + v.pending == v.sent + Buffered(v'.next);
  }

  lemma WriteTimesOut(v: View)
    requires Conserving(v)
    requires |v.pending| <= |v.written|
    ensures Conserving(v.(pending := [], written := v.written[..|v.written| - |v.pending|]))
  {
    var v' := v.(pending := [], written := v.written[..|v.written| - |v.pending|]);
    assert Frames(v') == Frames(v);
    if !v.cancelled && !v.shutdown {
      assert v'.written == v.sent + Buffered(v.next);
    }
  }

  lemma Closes(v: View)
    requires Conserving(v)
    ensures Conserving(v.(finishedWriting := true))
  {
    assert Frames(v.(finishedWriting := true)) == Frames(v);
  }

  lemma SetsBoundary(v: View, reliable: nat)
    requires Conserving(v) && !v.cancelled && reliable <= v.writeOffset + |Buffered(v.next)|
    ensures Conserving(v.(reliable := reliable))
  {
    assert Frames(v.(reliable := reliable)) == Frames(v);
  }

  /** Sends the first `n` buffered bytes in a new frame. */
  lemma SendsBuffered(v: View, n: nat, fin: bool)
    requires Conserving(v) && !v.shutdown && v.next.Some? && 0 < n <= |v.next.value.data|
    requires v.cancelled ==> v.writeOffset + n <= v.reliable
    requires fin ==> v.finishedWriting && n == |v.next.value.data| && v.pending == [] && !v.finSent
    ensures Conserving(SentBuffered(v, n, fin))
    ensures SentBuffered(v, n, fin).sent == v.sent + v.next.value.data[..n]
  {
    var v', f := SentBuffered(v, n, fin), StreamFrame(v.writeOffset, v.next.value.data[..n], fin);
    assert Frames(v') == Frames(v) + multiset{f};
    SendsNew(v, f);
    if !v.cancelled {
      assert v.sent + v.next.value.data == v'.sent + Buffered(v'.next);
    }
  }

  function SentBuffered(v: View, n: nat, fin: bool): View
    requires v.next.Some? && n <= |v.next.value.data|
  {
    var data := v.next.value.data;
    v.(writeOffset := v.writeOffset + n, sent := v.sent + data[..n], finSent := v.finSent || fin,
       next := if n == |data| then None else Some(StreamFrame(v.writeOffset + n, data[n..], false)),
       inFlight := v.inFlight + [StreamFrame(v.writeOffset, data[..n], fin)])
  }

  /** Sends the first `n` bytes that the writer still holds in a new frame. */
  lemma SendsPending(v: View, n: nat, fin: bool)
    requires Conserving(v) && !v.shutdown && v.next == None && 0 < n <= |v.pending| && n <= MAX_PACKET_BUFFER_SIZE
    requires !v.cancelled
    requires fin ==> v.finishedWriting && n == |v.pending| && !v.finSent
    ensures Conserving(SentPending(v, n, fin))
  {
    var v', f := SentPending(v, n, fin), StreamFrame(v.writeOffset, v.pending[..n], fin);
    assert Frames(v') == Frames(v) + multiset{f};
    SendsNew(v, f);
    assert v.sent + v.pending == v'.sent + v'.pending;
  }

  function SentPending(v: View, n: nat, fin: bool): View
    requires n <= |v.pending|
  {
    v.(writeOffset := v.writeOffset + n, sent := v.sent + v.pending[..n], finSent := v.finSent || fin,
       pending := v.pending[n..],
       inFlight := v.inFlight + [StreamFrame(v.writeOffset, v.pending[..n], fin)])
  }

  /** Sends the FIN in a frame of its own. */
  lemma SendsFin(v: View)
    requires Conserving(v) && !v.shutdown && v.next == None && v.pending == [] && v.finishedWriting && !v.finSent
    ensures Conserving(v.(finSent := true, inFlight := v.inFlight + [StreamFrame(v.writeOffset, [], true)]))
  {
    var f := StreamFrame(v.writeOffset, [], true);
    var v' := v.(finSent := true, inFlight := v.inFlight + [f]);
    assert Frames(v') == Frames(v) + multiset{f};
    assert v.sent + f.data == v.sent;
    SendsNew(v, f);
  }

  /** A new frame at the write offset, below the limit. */
  lemma SendsNew(v: View, f: StreamFrame)
    requires Conserving(v) && !v.shutdown
    requires f.offset == v.writeOffset && |f.data| <= MAX_PACKET_BUFFER_SIZE
    requires v.cancelled ==> f.data == [] || f.End() <= v.reliable
    ensures Delivering(Frames(v) + multiset{f}, Limit(v) + |f.data|, v.sent + f.data)
    ensures NoFin(Frames(v)) ==>
              if f.fin then FinOnce(Frames(v) + multiset{f}, f.End()) else NoFin(Frames(v) + multiset{f})
  {
    hide Delivering;
    SendNew(Frames(v), Limit(v), v.sent, f);
    if NoFin(Frames(v)) {
      SendFin(Frames(v), f);
    }
  }

  function Without(frames: seq<StreamFrame>, k: nat): seq<StreamFrame>
    requires k < |frames|
  {
    frames[..k] + frames[k + 1..]
  }

  lemma WithoutBag(frames: seq<StreamFrame>, k: nat)
    requires k < |frames|
    ensures multiset(frames) == multiset(Without(frames, k)) + multiset{frames[k]}
  {
    assert frames == frames[..k] + [frames[k]] + frames[k + 1..];
  }

  lemma MoveBag(acked: multiset<StreamFrame>, inFlight: seq<StreamFrame>, k: nat, queue: seq<StreamFrame>,
                kept: seq<StreamFrame>)
    requires k < |inFlight|
    ensures acked + multiset(Without(inFlight, k)) + multiset(queue + kept)
            == acked + multiset(inFlight) + multiset(queue) - multiset{inFlight[k]} + multiset(kept)
  {
    WithoutBag(inFlight, k);
    assert multiset(queue + kept) == multiset(queue) + multiset(kept);
  }

  /** Only where the frames are changed. */
  lemma SameFrames(v: View, v': View)
    requires Conserving(v) && Frames(v') == Frames(v)
    requires v' == v.(acked := v'.acked, inFlight := v'.inFlight, queue := v'.queue)
    ensures Conserving(v')
  {
  }

  /** Where the frames change, but not what they deliver. */
  lemma EquivalentFrames(v: View, v': View)
    requires Conserving(v) && v' == v.(acked := v'.acked, inFlight := v'.inFlight, queue := v'.queue)
    requires Delivering(Frames(v'), Limit(v), v.sent)
    requires !v.cancelled && !v.shutdown ==>
               (NoFin(Frames(v)) ==> NoFin(Frames(v')))
               && (FinOnce(Frames(v), v.writeOffset) ==> FinOnce(Frames(v'), v.writeOffset))
    ensures Conserving(v')
  {
  }

  lemma Delivers(v: View)
    requires Conserving(v)
    ensures Delivering(Frames(v), Limit(v), v.sent)
  {
  }

  /** Sends the head of the retransmission queue again. */
  lemma Retransmits(v: View)
    requires Conserving(v) && v.queue != []
    ensures Conserving(v.(queue := v.queue[1..], inFlight := v.inFlight + [v.queue[0]]))
  {
    var v' := v.(queue := v.queue[1..], inFlight := v.inFlight + [v.queue[0]]);
    assert v.queue == [v.queue[0]] + v.queue[1..];
    assert Frames(v') == Frames(v);
    SameFrames(v, v');
  }

  /** Sends the first `n` bytes of the head of the retransmission queue again. */
  lemma RetransmitsPart(v: View, n: nat)
    requires Conserving(v) && v.queue != [] && 0 < n < |v.queue[0].data|
    ensures Conserving(RetransmittedPart(v, n))
  {
    hide Conserving, Delivering, NoFin, FinOnce, Frames, Split;
    var v', f := RetransmittedPart(v, n), v.queue[0];
    PartFrames(v, n);
    Delivers(v);
    SplitFrame(Frames(v), Limit(v), v.sent, f, n);
    SplitFin(Frames(v), f, n, v.writeOffset);
    EquivalentFrames(v, v');
  }

  lemma PartFrames(v: View, n: nat)
    requires v.queue != [] && 0 < n < |v.queue[0].data|
    ensures v.queue[0] in Frames(v) && Frames(RetransmittedPart(v, n)) == Split(Frames(v), v.queue[0], n)
  {
    hide Prefix, Rest;
    var f := v.queue[0];
    assert v.queue == [f] + v.queue[1..];
    assert multiset(v.queue) == multiset{f} + multiset(v.queue[1..]);
    assert multiset([Rest(f, n)] + v.queue[1..]) == multiset{Rest(f, n)} + multiset(v.queue[1..]);
    assert multiset(v.inFlight + [Prefix(f, n)]) == multiset(v.inFlight) + multiset{Prefix(f, n)};
  }

  function RetransmittedPart(v: View, n: nat): View
    requires v.queue != [] && n <= |v.queue[0].data|
  {
    var f := v.queue[0];
    v.(queue := [Rest(f, n)] + v.queue[1..], inFlight := v.inFlight + [Prefix(f, n)])
  }

  lemma Acknowledges(v: View, k: nat)
    requires Conserving(v) && k < |v.inFlight|
    ensures Conserving(v.(acked := v.acked + multiset{v.inFlight[k]}, inFlight := Without(v.inFlight, k)))
  {
    var v' := v.(acked := v.acked + multiset{v.inFlight[k]}, inFlight := Without(v.inFlight, k));
    WithoutBag(v.inFlight, k);
    assert Frames(v') == Frames(v);
    SameFrames(v, v');
  }

  /** What is kept of a lost frame: all of it, or after a cancellation what lies below the reliable size. */
  function Kept(v: View, f: StreamFrame): seq<StreamFrame> {
    if v.cancelled then Below(f, v.reliable) else [f]
  }

  function Lost(v: View, k: nat): View
    requires k < |v.inFlight|
  {
    v.(inFlight := Without(v.inFlight, k), queue := v.queue + Kept(v, v.inFlight[k]))
  }

  lemma Loses(v: View, k: nat)
    requires Conserving(v) && k < |v.inFlight|
    ensures Conserving(Lost(v, k))
  {
    hide Conserving, Delivering, NoFin, FinOnce, Frames, Limit, Without;
    LostFrames(v, k);
    Delivers(v);
    if v.cancelled {
      TruncateFrame(Frames(v), Limit(v), v.sent, v.inFlight[k], v.reliable);
    }
    EquivalentFrames(v, Lost(v, k));
  }

  lemma LostFrames(v: View, k: nat)
    requires k < |v.inFlight|
    ensures v.inFlight[k] in Frames(v) && (v.cancelled ==> Limit(v) <= v.reliable)
    ensures v.cancelled ==>
              Frames(Lost(v, k)) == Frames(v) - multiset{v.inFlight[k]} + multiset(Below(v.inFlight[k], v.reliable))
    ensures !v.cancelled ==> Frames(Lost(v, k)) == Frames(v)
  {
    var f := v.inFlight[k];
    assert f in multiset(v.inFlight);
    MoveBag(v.acked, v.inFlight, k, v.queue, Kept(v, f));
  }

  /** What is kept of the buffered frame. */
  function NextBelow(next: Option<StreamFrame>, r: nat): Option<StreamFrame> {
    match next
    case None => None
    case Some(f) => if Below(f, r) == [] then None else Some(Below(f, r)[0])
  }

  lemma NextBelowZero(next: Option<StreamFrame>)
    ensures NextBelow(next, 0) == None
  {
  }

  lemma Cancels(v: View)
    requires Conserving(v) && !v.cancelled && !v.shutdown
    ensures Conserving(v.(cancelled := true, next := NextBelow(v.next, v.reliable),
                          queue := AllBelow(v.queue, v.reliable)))
  {
    var v' := v.(cancelled := true, next := NextBelow(v.next, v.reliable), queue := AllBelow(v.queue, v.reliable));
    assert Limit(v') <= Limit(v);
    assert Delivering(Frames(v), Limit(v'), v.sent);
    TruncateAll(v.acked + multiset(v.inFlight), v.queue, Limit(v'), v.sent, v.reliable);
  }

  /** Nothing has to be delivered any more. */
  lemma GivesUp(v: View, v': View)
    requires Conserving(v)
    requires v'.sent == v.sent && v'.writeOffset == v.writeOffset && v'.acked == v.acked && v'.inFlight == v.inFlight
    requires v'.queue == [] && v'.next == None
    requires v'.shutdown || (v'.cancelled && v'.reliable == 0)
    ensures Conserving(v')
  {
    assert Frames(v) == Frames(v') + multiset(v.queue);
  }
}

/** The lock regions of quic-go-bbr/streams_map_outgoing.go as steps of a state machine. Every blocked call of
    OpenStreamSync has a number, in the order in which the calls were queued. */
module OutgoingSpec {
  import opened Protocol

  const INVALID_STREAM_ID := -1

  /** Where a blocked call is: in the select statement, after receiving from its channel, after the end of its context,
      or returned. */
  datatype Pc = Waiting | Woken | Cancelling | Returned

  /** A blocked call, and its channel: whether it holds a value, and whether it is closed. */
  datatype Call = Call(pc: Pc, token: bool, closed: bool)

  datatype State = State(
    first: int, streams: set<int>, openQueue: seq<nat>, nextStream: int, maxStream: int, blockedSent: bool,
    closeErr: Option<nat>,
    calls: seq<Call>, ids: seq<int>, served: seq<nat>, blocked: seq<nat>)

  datatype Outcome = Stream(id: int) | LimitReached | MapClosed(err: nat) | ContextDone | Blocked(call: nat)

  /** StreamID.StreamNum, and 0 for no stream at all. */
  function Limit(id: int): nat
    requires id >= -1
  {
    if id == INVALID_STREAM_ID then 0 else id / 4 + 1
  }

  /** How many more streams may be opened. */
  function Available(s: State): nat {
    if s.nextStream > s.maxStream then 0 else (s.maxStream - s.nextStream) / 4 + 1
  }

  ghost predicate Increasing(q: seq<nat>) {
    forall i, j :: 0 <= i < j < |q| ==> q[i] < q[j]
  }

  /** A stream ID of the right kind, or none. */
  predicate Aligned(s: State, id: int) {
    id == INVALID_STREAM_ID || (0 <= id && id % 4 == s.first)
  }

  /** The streams opened are the first ones, none above the limit. */
  ghost predicate Numbered(s: State) {
    && 0 <= s.first < 4 && Aligned(s, s.maxStream)
    && s.nextStream == s.first + 4 * |s.ids|
    && (forall i :: 0 <= i < |s.ids| ==> s.ids[i] == s.first + 4 * i <= s.maxStream)
    && (forall id :: id in s.streams ==> id in s.ids)
  }

  /** The queue is in the order of arrival, behind everyone who was served. */
  ghost predicate Fifo(s: State) {
    && Increasing(s.openQueue) && Increasing(s.served)
    && (forall w :: w in s.openQueue ==> w < |s.calls|)
    && (forall w :: w in s.served ==> w < |s.calls| && s.calls[w].pc == Returned)
    && (forall v, w :: v in s.served && w in s.openQueue ==> v < w)
  }

  /** A call has received, or can receive. */
  predicate Signalled(c: Call) {
    c.token || c.pc == Woken
  }

  /** Only the head of the queue is ever signalled, and only while there is a stream for it. */
  ghost predicate OnlyHead(s: State) {
    forall w :: w in s.openQueue && w < |s.calls| && Signalled(s.calls[w]) ==>
      w == s.openQueue[0] && s.nextStream <= s.maxStream
  }

  /** While there is a stream, the head is signalled, unless it is giving up. */
  ghost predicate WokenUp(s: State) {
    && OnlyHead(s)
    && (s.openQueue != [] && s.openQueue[0] < |s.calls| && s.nextStream <= s.maxStream ==>
          Signalled(s.calls[s.openQueue[0]]) || s.calls[s.openQueue[0]].pc == Cancelling)
  }

  /** Exactly the calls in the queue are blocked, on open channels; when the map is closed, no call is left that will
      not be woken up. */
  ghost predicate Queued(s: State) {
    && (s.closeErr == None ==> forall w :: 0 <= w < |s.calls| ==> (w in s.openQueue <==> s.calls[w].pc != Returned))
    && (forall w :: w in s.openQueue && w < |s.calls| ==> !s.calls[w].closed)
    && (s.closeErr.Some? ==>
          && s.openQueue == []
          && forall w :: 0 <= w < |s.calls| && s.calls[w].pc == Waiting ==> s.calls[w].closed)
  }

  /** At most one STREAMS_BLOCKED per limit. */
  ghost predicate BlockedOnce(s: State) {
    && s.maxStream >= -1
    && Increasing(s.blocked)
    && (forall n :: n in s.blocked ==> n <= Limit(s.maxStream))
    && (s.blockedSent <==> s.blocked != [] && s.blocked[|s.blocked| - 1] == Limit(s.maxStream))
  }

  /** There is one for the current limit as long as not every waiting call can be served. */
  ghost predicate Announced(s: State) {
    && BlockedOnce(s)
    && (s.openQueue != [] && s.maxStream < s.nextStream - 4 + 4 * |s.openQueue| ==> s.blockedSent)
  }

  ghost predicate Inv(s: State) {
    Numbered(s) && Fifo(s) && WokenUp(s) && Queued(s) && Announced(s)
  }

  /** maybeUnblockOpenSync; sending on a closed channel would panic. */
  function MaybeUnblock(s: State): State {
    if s.openQueue == [] || s.nextStream > s.maxStream || s.openQueue[0] >= |s.calls| then s
    else s.(calls := s.calls[s.openQueue[0] := s.calls[s.openQueue[0]].(token := true)])
  }

  /** maybeSendBlockedFrame */
  function MaybeSendBlocked(s: State): State
    requires s.maxStream >= -1
  {
    if s.blockedSent then s else s.(blocked := s.blocked + [Limit(s.maxStream)], blockedSent := true)
  }

  /** openStream */
  function Open(s: State): State {
    s.(streams := s.streams + {s.nextStream}, ids := s.ids + [s.nextStream], nextStream := s.nextStream + 4)
  }

  function OpenStream(s: State): (State, Outcome)
    requires s.maxStream >= -1
  {
    if s.closeErr.Some? then (s, MapClosed(s.closeErr.value))
    else if s.openQueue != [] || s.nextStream > s.maxStream then (MaybeSendBlocked(s), LimitReached)
    else (Open(s), Stream(s.nextStream))
  }

  /** OpenStreamSync, up to the select statement. */
  function OpenStreamSync(s: State, ctxDone: bool): (State, Outcome)
    requires s.maxStream >= -1
  {
    if s.closeErr.Some? then (s, MapClosed(s.closeErr.value))
    else if ctxDone then (s, ContextDone)
    else if s.openQueue == [] && s.nextStream <= s.maxStream then (Open(s), Stream(s.nextStream))
    else
      var w := |s.calls|;
      (MaybeSendBlocked(s.(calls := s.calls + [Call(Waiting, false, false)], openQueue := s.openQueue + [w])),
       Blocked(w))
  }

  /** The select statement takes the channel. */
  predicate CanReceive(s: State, w: nat) {
    w < |s.calls| && s.calls[w].pc == Waiting && (s.calls[w].token || s.calls[w].closed)
  }

  function Receive(s: State, w: nat): State
    requires CanReceive(s, w)
  {
    s.(calls := s.calls[w := s.calls[w].(pc := Woken, token := false)])
  }

  /** The select statement takes the end of the context, whatever is in the channel. */
  function Cancel(s: State, w: nat): State
    requires w < |s.calls| && s.calls[w].pc == Waiting
  {
    s.(calls := s.calls[w := s.calls[w].(pc := Cancelling)])
  }

  function Remove(q: seq<nat>, w: nat): seq<nat> {
    if q == [] then [] else (if q[0] == w then [] else [q[0]]) + Remove(q[1..], w)
  }

  /** OpenStreamSync, after the end of the context. */
  function FinishCancel(s: State, w: nat): State
    requires w < |s.calls|
  {
    MaybeUnblock(s.(calls := s.calls[w := s.calls[w].(pc := Returned)], openQueue := Remove(s.openQueue, w)))
  }

  /** OpenStreamSync, after receiving from the channel; the call waits again if there is no stream. */
  function FinishReceive(s: State, w: nat): (State, Option<Outcome>)
    requires w < |s.calls| && (s.closeErr == None && s.nextStream <= s.maxStream ==> s.openQueue != [])
  {
    if s.closeErr.Some? then (s.(calls := s.calls[w := s.calls[w].(pc := Returned)]), Some(MapClosed(s.closeErr.value)))
    else if s.nextStream > s.maxStream then (s.(calls := s.calls[w := s.calls[w].(pc := Waiting)]), None)
    else
      var s' := Open(s);
      (MaybeUnblock(s'.(calls := s.calls[w := s.calls[w].(pc := Returned)], openQueue := s.openQueue[1..],
                        served := s.served + [w])),
       Some(Stream(s.nextStream)))
  }

  function DeleteStream(s: State, id: int): (State, bool) {
    if id in s.streams then (s.(streams := s.streams - {id}), true) else (s, false)
  }

  function SetMaxStream(s: State, id: int): State {
    if id <= s.maxStream || id < -1 then s
    else
      var s' := s.(maxStream := id, blockedSent := false);
      MaybeUnblock(if id < s.nextStream - 4 + 4 * |s.openQueue| then MaybeSendBlocked(s') else s')
  }

  function CloseWithError(s: State, err: nat): State {
    s.(closeErr := Some(err), openQueue := [],
       calls := seq(|s.calls|, w requires 0 <= w < |s.calls| =>
                                 if w in s.openQueue then s.calls[w].(closed := true) else s.calls[w]))
  }

  // ---- Every step keeps the invariant. ----

  lemma IncreasingSnoc(q: seq<nat>, x: nat)
    requires Increasing(q) && forall v :: v in q ==> v < x
    ensures Increasing(q + [x])
  {
    forall i | 0 <= i < |q|
      ensures q[i] < x
    {
      assert q[i] in q;
    }
  }

  lemma BlockedSnoc(s: State)
    requires BlockedOnce(s)
    ensures BlockedOnce(MaybeSendBlocked(s))
  {
    if !s.blockedSent {
      forall n | n in s.blocked
        ensures n < Limit(s.maxStream)
      {
        assert s.blocked[|s.blocked| - 1] in s.blocked;
      }
      IncreasingSnoc(s.blocked, Limit(s.maxStream));
    }
  }

  lemma OpenNumbered(s: State)
    requires Numbered(s) && s.nextStream <= s.maxStream
    ensures Numbered(Open(s))
  {
  }

  lemma OpenStreamInv(s: State)
    requires Inv(s)
    ensures Inv(OpenStream(s).0)
  {
    hide Numbered, Fifo, Queued, BlockedOnce;
    assert s.maxStream >= -1 by { Bounded(s); }
    BlockedSnoc(s);
    if s.nextStream <= s.maxStream {
      OpenNumbered(s);
    }
    var s' := OpenStream(s).0;
    SameQueue(s, s');
    SameNumbers(s, s');
  }

  lemma Bounded(s: State)
    requires BlockedOnce(s)
    ensures s.maxStream >= -1
  {
  }

  /** Nothing about the queue has changed. */
  lemma SameQueue(s: State, s': State)
    requires s'.openQueue == s.openQueue && s'.calls == s.calls && s'.served == s.served && s'.closeErr == s.closeErr
    ensures Fifo(s) ==> Fifo(s')
    ensures Queued(s) ==> Queued(s')
    ensures s'.nextStream == s.nextStream && s'.maxStream == s.maxStream && WokenUp(s) ==> WokenUp(s')
  {
  }

  /** Nothing about the streams has changed. */
  lemma SameNumbers(s: State, s': State)
    ensures (s'.first, s'.streams, s'.nextStream, s'.maxStream, s'.ids)
            == (s.first, s.streams, s.nextStream, s.maxStream, s.ids) && Numbered(s)
            ==> Numbered(s')
    ensures (s'.maxStream, s'.blockedSent, s'.blocked) == (s.maxStream, s.blockedSent, s.blocked) && BlockedOnce(s) ==>
              BlockedOnce(s')
  {
  }

  lemma NobodyWaits(s: State)
    requires s.openQueue == []
    ensures WokenUp(s)
  {
  }

  lemma EnqueueFifo(s: State)
    requires Fifo(s) && Queued(s) && s.closeErr == None
    ensures var s' := s.(calls := s.calls + [Call(Waiting, false, false)], openQueue := s.openQueue + [|s.calls|]);
            Fifo(s') && Queued(s')
  {
    IncreasingSnoc(s.openQueue, |s.calls|);
  }

  lemma EnqueueWokenUp(s: State)
    requires Fifo(s) && WokenUp(s) && (s.openQueue == [] ==> s.nextStream > s.maxStream)
    ensures WokenUp(s.(calls := s.calls + [Call(Waiting, false, false)], openQueue := s.openQueue + [|s.calls|]))
  {
    if s.openQueue != [] {
      assert s.openQueue[0] in s.openQueue;
    }
  }

  lemma OpenStreamSyncInv(s: State, ctxDone: bool)
    requires Inv(s)
    ensures Inv(OpenStreamSync(s, ctxDone).0)
  {
    hide Numbered, Fifo, Queued, BlockedOnce, WokenUp;
    assert s.maxStream >= -1 by { Bounded(s); }
    if s.closeErr.Some? || ctxDone {
    } else if s.openQueue == [] && s.nextStream <= s.maxStream {
      OpenNumbered(s);
      SameQueue(s, Open(s));
      SameNumbers(s, Open(s));
      NobodyWaits(Open(s));
    } else {
      EnqueueFifo(s);
      EnqueueWokenUp(s);
      var s' := s.(calls := s.calls + [Call(Waiting, false, false)], openQueue := s.openQueue + [|s.calls|]);
      SameNumbers(s, s');
      BlockedSnoc(s');
      SameQueue(s', MaybeSendBlocked(s'));
      SameNumbers(s', MaybeSendBlocked(s'));
    }
  }

  lemma ReceiveInv(s: State, w: nat)
    requires Inv(s) && CanReceive(s, w)
    ensures Inv(Receive(s, w))
  {
  }

  lemma CancelInv(s: State, w: nat)
    requires Inv(s) && w < |s.calls| && s.calls[w].pc == Waiting
    ensures Inv(Cancel(s, w))
  {
  }

  lemma {:induction false} Removed(q: seq<nat>, w: nat)
    requires Increasing(q)
    ensures Increasing(Remove(q, w))
    ensures forall v :: v in Remove(q, w) <==> v in q && v != w
    ensures |Remove(q, w)| == if w in q then |q| - 1 else |q|
    ensures q != [] && q[0] != w ==> Remove(q, w) != [] && Remove(q, w)[0] == q[0]
  {
    if q != [] {
      Removed(q[1..], w);
      assert q == [q[0]] + q[1..];
      var rest := Remove(q[1..], w);
      forall i | 0 <= i < |rest|
        ensures q[0] < rest[i]
      {
        assert rest[i] in rest;
      }
    }
  }

  /** After the queue has changed, the new head is signalled if there is a stream for it. */
  lemma UnblockInv(s: State)
    requires Numbered(s) && Fifo(s) && OnlyHead(s) && Queued(s) && Announced(s)
    ensures Inv(MaybeUnblock(s))
  {
    var s' := MaybeUnblock(s);
    SameNumbers(s, s');
    if s' != s {
      assert s.openQueue[0] in s.openQueue;
    }
  }

  lemma FinishCancelInv(s: State, w: nat)
    requires Inv(s) && w < |s.calls| && s.calls[w].pc == Cancelling
    ensures Inv(FinishCancel(s, w))
  {
    Removed(s.openQueue, w);
    var s' := s.(calls := s.calls[w := s.calls[w].(pc := Returned)], openQueue := Remove(s.openQueue, w));
    SameNumbers(s, s');
    UnblockInv(s');
  }

  lemma ServeFifo(s: State, w: nat)
    requires Fifo(s) && Queued(s) && OnlyHead(s) && s.closeErr == None && s.openQueue != [] && w == s.openQueue[0]
    requires w < |s.calls|
    ensures var s' := Open(s).(calls := s.calls[w := s.calls[w].(pc := Returned)], openQueue := s.openQueue[1..],
                               served := s.served + [w]);
            Fifo(s') && Queued(s') && OnlyHead(s')
  {
    assert w in s.openQueue;
    IncreasingSnoc(s.served, w);
    TailOf(s.openQueue);
  }

  lemma TailOf(q: seq<nat>)
    requires Increasing(q) && q != []
    ensures Increasing(q[1..]) && forall v :: v in q[1..] <==> v in q && v != q[0]
    ensures forall v :: v in q[1..] ==> v > q[0]
  {
    assert q == [q[0]] + q[1..];
    forall v | v in q[1..]
      ensures v > q[0]
    {
      var i :| 0 <= i < |q[1..]| && q[1..][i] == v;
      assert q[i + 1] == v;
    }
  }

  /** A call that was woken up is the head of the queue, and there is a stream for it: it never has to wait again. */
  lemma WokenIsHead(s: State, w: nat)
    requires Inv(s) && w < |s.calls| && s.calls[w].pc == Woken && s.closeErr == None
    ensures s.openQueue != [] && w == s.openQueue[0] && s.nextStream <= s.maxStream
  {
    assert w in s.openQueue;
  }

  lemma FinishReceiveInv(s: State, w: nat)
    requires Inv(s) && w < |s.calls| && s.calls[w].pc == Woken
    ensures s.closeErr == None ==> s.openQueue != []
    ensures Inv(FinishReceive(s, w).0)
  {
    hide BlockedOnce, Numbered;
    if s.closeErr == None {
      WokenIsHead(s, w);
      var s' := Open(s).(calls := s.calls[w := s.calls[w].(pc := Returned)], openQueue := s.openQueue[1..],
                         served := s.served + [w]);
      OpenNumbered(s);
      SameNumbers(Open(s), s');
      SameNumbers(s, s');
      ServeFifo(s, w);
      UnblockInv(s');
    } else {
      SameNumbers(s, FinishReceive(s, w).0);
    }
  }

  lemma DeleteStreamInv(s: State, id: int)
    requires Inv(s)
    ensures Inv(DeleteStream(s, id).0)
  {
  }

  lemma SetMaxStreamInv(s: State, id: int)
    requires Inv(s) && Aligned(s, id)
    ensures Inv(SetMaxStream(s, id))
  {
    if id > s.maxStream {
      var s' := s.(maxStream := id, blockedSent := false);
      assert Limit(s.maxStream) < Limit(id);
      assert s.blocked != [] ==> s.blocked[|s.blocked| - 1] in s.blocked;
      BlockedSnoc(s');
      UnblockInv(if id < s.nextStream - 4 + 4 * |s.openQueue| then MaybeSendBlocked(s') else s');
    }
  }

  lemma CloseInv(s: State, err: nat)
    requires Inv(s)
    ensures Inv(CloseWithError(s, err))
  {
  }
}

/** quic-go-bbr/streams_map_outgoing.go: the streams that this endpoint opens. Every method is one lock region of the
    original, and is a step of the state machine in OutgoingSpec. */
module OutgoingStreams {
  import opened Protocol
  import opened OutgoingSpec
  import R = OutgoingRuns

  class OutgoingStreamsMap {
    const first: int
    var streams: set<int>
    var openQueue: seq<nat>
    var nextStream: int
    var maxStream: int
    var blockedSent: bool
    var closeErr: Option<nat>

    /** The calls of OpenStreamSync that were blocked, with their channels, and the limits in the STREAMS_BLOCKED frames
        queued. */
    var calls: seq<Call>
    var blocked: seq<nat>

    /** The streams opened, and the blocked calls that opened one. */
    ghost var ids: seq<int>
    ghost var served: seq<nat>

    ghost function V(): State
      reads this
    {
      State(first, streams, openQueue, nextStream, maxStream, blockedSent, closeErr, calls, ids, served, blocked)
    }

    ghost predicate Valid()
      reads this
    {
      Inv(V())
    }

    constructor (first: int)
      requires 0 <= first < 4
      ensures V() == R.Fresh(first)
      ensures Valid()
    {
      this.first, streams, openQueue, nextStream, maxStream := first, {}, [], first, INVALID_STREAM_ID;
      blockedSent, closeErr, calls, blocked := false, None, [], [];
      ids, served := [], [];
      R.FreshInv(first);
    }

    /** openStream */
    method OpenOne() returns (id: int)
      modifies this`streams, this`nextStream, this`ids
      ensures V() == Open(old(V())) && id == old(nextStream)
      ensures old(Numbered(V())) ==> id !in old(ids) && id !in old(streams) && (id <= maxStream ==> Numbered(V()))
    {
      if Numbered(V()) && nextStream <= maxStream {
        OpenNumbered(V());
      }
      id := nextStream;
      streams, ids := streams + {id}, ids + [id];
      nextStream := nextStream + 4;
    }

    method MaybeSendBlockedFrame()
      requires maxStream >= -1
      modifies this`blocked, this`blockedSent
      ensures V() == MaybeSendBlocked(old(V()))
      ensures old(BlockedOnce(V())) ==> BlockedOnce(V()) && blocked != [] && blocked[|blocked| - 1] == Limit(maxStream)
    {
      if BlockedOnce(V()) {
        BlockedSnoc(V());
      }
      if blockedSent {
        return;
      }
      var streamLimit := 0;
      if maxStream != INVALID_STREAM_ID {
        streamLimit := maxStream / 4 + 1;
      }
      blocked := blocked + [streamLimit];
      blockedSent := true;
    }

    /** Sends without blocking; the channel to send on is open. */
    method MaybeUnblockOpenSync()
      requires forall w :: w in openQueue ==> w < |calls| && !calls[w].closed
      modifies this`calls
      ensures V() == MaybeUnblock(old(V()))
    {
      if |openQueue| == 0 {
        return;
      }
      if nextStream > maxStream {
        return;
      }
      assert openQueue[0] in openQueue;
      var c := calls[openQueue[0]];
      if !c.token {
        calls := calls[openQueue[0] := c.(token := true)];
      }
    }

    method OpenStreamNow() returns (r: Outcome)
      requires Valid()
      modifies this`streams, this`nextStream, this`ids, this`blocked, this`blockedSent
      ensures maxStream >= -1 && (V(), r) == OpenStream(old(V()))
      ensures Valid()
    {
      hide Inv;
      R.Bounds(V());
      OpenStreamInv(V());
      if closeErr.Some? {
        return MapClosed(closeErr.value);
      }
      if |openQueue| > 0 || nextStream > maxStream {
        MaybeSendBlockedFrame();
        return LimitReached;
      }
      var id := OpenOne();
      r := Stream(id);
    }

    /** OpenStreamSync, up to the select statement. */
    method BeginOpenStreamSync(ctxDone: bool) returns (r: Outcome)
      requires Valid()
      modifies this`streams, this`nextStream, this`ids, this`blocked, this`blockedSent, this`calls, this`openQueue
      ensures maxStream >= -1 && (V(), r) == OpenStreamSync(old(V()), ctxDone)
      ensures Valid()
    {
      hide Inv;
      R.Bounds(V());
      OpenStreamSyncInv(V(), ctxDone);
      if closeErr.Some? {
        return MapClosed(closeErr.value);
      }
      if ctxDone {
        return ContextDone;
      }
      if |openQueue| == 0 && nextStream <= maxStream {
        var id := OpenOne();
        return Stream(id);
      }
      r := Blocked(|calls|);
      calls, openQueue := calls + [Call(Waiting, false, false)], openQueue + [|calls|];
      MaybeSendBlockedFrame();
    }

    /** The select statement receives from the channel. */
    method ReceiveSignal(w: nat)
      requires Valid() && CanReceive(V(), w)
      modifies this`calls
      ensures V() == Receive(old(V()), w)
      ensures Valid()
    {
      ReceiveInv(V(), w);
      calls := calls[w := calls[w].(pc := Woken, token := false)];
    }

    /** The select statement sees the end of the context. */
    method ContextEnds(w: nat)
      requires Valid() && w < |calls| && calls[w].pc == Waiting
      modifies this`calls
      ensures V() == Cancel(old(V()), w)
      ensures Valid()
    {
      CancelInv(V(), w);
      calls := calls[w := calls[w].(pc := Cancelling)];
    }

    /** slices.DeleteFunc on the queue. */
    method DeleteFromQueue(w: nat)
      modifies this`openQueue
      ensures openQueue == Remove(old(openQueue), w)
    {
      var i, kept := 0, [];
      while i < |openQueue|
        invariant 0 <= i <= |openQueue|
        invariant Remove(openQueue, w) == kept + Remove(openQueue[i..], w)
      {
        var x := openQueue[i];
        ghost var rest := Remove(openQueue[i + 1..], w);
        assert openQueue[i..][0] == x && openQueue[i..][1..] == openQueue[i + 1..];
        assert Remove(openQueue[i..], w) == (if x == w then [] else [x]) + rest;
        if x != w {
          assert kept + ([x] + rest) == (kept + [x]) + rest;
          kept := kept + [x];
        } else {
          assert [] + rest == rest;
        }
        i := i + 1;
      }
      assert openQueue[i..] == [] && kept + [] == kept;
      openQueue := kept;
    }

    /** OpenStreamSync, after the end of the context. */
    method AfterContextEnds(w: nat) returns (r: Outcome)
      requires Valid() && w < |calls| && calls[w].pc == Cancelling
      modifies this`calls, this`openQueue
      ensures V() == FinishCancel(old(V()), w) && r == ContextDone
      ensures Valid()
    {
      hide Inv;
      FinishCancelInv(V(), w);
      Cancellable(V(), w);
      DeleteFromQueue(w);
      calls := calls[w := calls[w].(pc := Returned)];
      MaybeUnblockOpenSync();
      r := ContextDone;
    }

    /** OpenStreamSync, after receiving from the channel. The loop is never entered again. */
    method AfterReceive(w: nat) returns (r: Outcome)
      requires Valid() && w < |calls| && calls[w].pc == Woken
      modifies this`streams, this`nextStream, this`ids, this`calls, this`openQueue, this`served
      ensures (closeErr == None ==> old(openQueue) != []) && (V(), Some(r)) == FinishReceive(old(V()), w)
      ensures Valid()
    {
      hide Inv, Remove;
      FinishReceiveInv(V(), w);
      if closeErr.Some? {
        calls := calls[w := calls[w].(pc := Returned)];
        return MapClosed(closeErr.value);
      }
      WokenIsHead(V(), w);
      Servable(V());
      if nextStream > maxStream {
        assert false;
      }
      var id := OpenOne();
      openQueue, served := openQueue[1..], served + [w];
      calls := calls[w := calls[w].(pc := Returned)];
      MaybeUnblockOpenSync();
      r := Stream(id);
    }

    method DeleteStreamById(id: int) returns (ok: bool)
      requires Valid()
      modifies this`streams
      ensures (V(), ok) == DeleteStream(old(V()), id)
      ensures Valid()
    {
      DeleteStreamInv(V(), id);
      if id !in streams {
        return false;
      }
      streams := streams - {id};
      ok := true;
    }

    method SetMaxStreamId(id: int)
      requires Valid() && Aligned(V(), id)
      modifies this`maxStream, this`blockedSent, this`blocked, this`calls
      ensures V() == SetMaxStream(old(V()), id)
      ensures Valid()
    {
      hide Inv;
      R.Bounds(V());
      SetMaxStreamInv(V(), id);
      Sendable(V());
      if id <= maxStream {
        return;
      }
      maxStream := id;
      blockedSent := false;
      if maxStream < nextStream - 4 + 4 * |openQueue| {
        MaybeSendBlockedFrame();
      }
      MaybeUnblockOpenSync();
    }

    /** CloseWithError; the streams are told elsewhere. */
    method Close(err: nat)
      requires Valid()
      modifies this`closeErr, this`calls, this`openQueue
      ensures V() == CloseWithError(old(V()), err)
      ensures Valid()
    {
      hide Inv;
      CloseInv(V(), err);
      Sendable(V());
      Distinct(V());
      closeErr := Some(err);
      var i := 0;
      while i < |openQueue|
        modifies this`calls
        invariant 0 <= i <= |openQueue| && |calls| == |old(calls)|
        invariant forall w :: 0 <= w < |calls| ==>
                  calls[w] == if w in openQueue[..i] then old(calls)[w].(closed := true) else old(calls)[w]
      {
        var w := openQueue[i];
        assert w in openQueue && w !in openQueue[..i] && openQueue[..i + 1] == openQueue[..i] + [w];
        // Closing a channel twice would panic.
        assert !calls[w].closed;
        calls := calls[w := calls[w].(closed := true)];
        i := i + 1;
      }
      assert openQueue[..i] == openQueue;
      openQueue := [];
    }
  }

  lemma Sendable(s: State)
    requires Inv(s)
    ensures forall w :: w in s.openQueue ==> w < |s.calls| && !s.calls[w].closed
  {
  }

  lemma Distinct(s: State)
    requires Inv(s)
    ensures forall i, j :: 0 <= i < j < |s.openQueue| ==> s.openQueue[i] != s.openQueue[j]
  {
  }

  lemma Cancellable(s: State, w: nat)
    requires Inv(s)
    ensures forall v :: v in Remove(s.openQueue, w) ==> v != w && v < |s.calls| && !s.calls[v].closed
  {
    Removed(s.openQueue, w);
  }

  lemma Servable(s: State)
    requires Inv(s) && s.openQueue != []
    ensures forall v :: v in s.openQueue[1..] ==> v != s.openQueue[0] && v < |s.calls| && !s.calls[v].closed
  {
    TailOf(s.openQueue);
  }
}

/** quic-go-bbr/streams_map_incoming.go: the streams that the peer opens. Every method is one lock region of the
    original, and is a step of the state machine in IncomingSpec. */
module IncomingStreams {
  import opened Protocol
  import opened IncomingSpec
  import R = IncomingRuns

  class IncomingStreamsMap {
    const first: int
    const maxNumStreams: nat
    var streams: map<int, bool>
    var nextStreamToAccept: int
    var nextStreamToOpen: int
    var maxStream: int
    var newStreamChan: bool
    var closeErr: Option<nat>

    /** The calls of AcceptStream, and the stream numbers in the MAX_STREAMS frames queued. */
    var callers: seq<Caller>
    var limits: seq<nat>

    /** How many streams were opened and deleted, and the streams accepted. */
    ghost var numOpened: nat
    ghost var deleted: nat
    ghost var accepted: seq<int>

    ghost function V(): State
      reads this
    {
      State(first, maxNumStreams, streams, nextStreamToAccept, nextStreamToOpen, maxStream, newStreamChan, closeErr,
            callers, numOpened,
            deleted, accepted, limits)
    }

    ghost predicate Valid()
      reads this
    {
      Inv(V())
    }

    constructor (first: int, maxNumStreams: nat)
      requires 0 <= first < 4 && maxNumStreams <= MAX_STREAM_COUNT
      ensures V() == R.Fresh(first, maxNumStreams)
      ensures Valid()
    {
      this.first, this.maxNumStreams, streams := first, maxNumStreams, map[];
      nextStreamToAccept, nextStreamToOpen := first, first;
      maxStream, newStreamChan, closeErr, callers, limits := Id(first, maxNumStreams), false, None, [], [];
      numOpened, deleted, accepted := 0, 0, [];
      R.FreshInv(first, maxNumStreams);
    }

    /** AcceptStream, the part before the lock is taken. */
    method BeginAcceptStream() returns (w: nat)
      requires Valid()
      modifies this`newStreamChan, this`callers
      ensures V() == BeginAccept(old(V())) && w == |old(callers)|
      ensures Valid()
    {
      R.StepInv(V(), R.AcceptBegins);
      w := |callers|;
      newStreamChan := false;
      callers := callers + [Looking];
    }

    /** AcceptStream, with the lock held: a stream is accepted, the map is closed, or the call waits. */
    method LookForStream(w: nat) returns (id: Option<int>)
      requires Valid() && w < |callers| && callers[w] == Looking
      modifies this`callers, this`nextStreamToAccept, this`accepted, this`streams, this`deleted, this`maxStream,
               this`limits
      ensures (V(), id) == Look(old(V()), w)
      ensures Valid()
    {
      hide Inv, Delete;
      LookInv(V(), w);
      id := None;
      if closeErr.Some? {
        callers := callers[w := Returned];
        return;
      }
      var next := nextStreamToAccept;
      if next !in streams {
        callers := callers[w := Waiting];
        return;
      }
      var shouldDelete := streams[next];
      callers, nextStreamToAccept, accepted := callers[w := Returned], nextStreamToAccept + 4, accepted + [next];
      if shouldDelete {
        DeleteAccepted(next);
      }
      id := Some(next);
    }

    /** AcceptStream receives a signal. */
    method ReceiveSignal(w: nat)
      requires Valid() && CanReceive(V(), w)
      modifies this`newStreamChan, this`callers
      ensures V() == Receive(old(V()), w)
      ensures Valid()
    {
      R.StepInv(V(), R.Receives(w));
      newStreamChan := false;
      callers := callers[w := Looking];
    }

    /** The context of AcceptStream ends. */
    method ContextEnds(w: nat)
      requires Valid() && w < |callers| && callers[w] == Waiting
      modifies this`callers
      ensures V() == GiveUp(old(V()), w)
      ensures Valid()
    {
      R.StepInv(V(), R.GivesUp(w));
      callers := callers[w := Returned];
    }

    /** GetOrOpenStream; a signal is sent for every new stream, which would panic if the channel was closed. */
    method GetOrOpen(id: int) returns (r: Lookup)
      requires Valid() && OfKind(first, id) && (closeErr == None || id < nextStreamToOpen || id > maxStream)
      modifies this`streams, this`nextStreamToOpen, this`newStreamChan, this`numOpened
      ensures (V(), r) == GetOrOpenStream(old(V()), id)
      ensures Valid()
    {
      hide Inv, OfKind;
      GetOrOpenInv(V(), id);
      if id > maxStream {
        return LimitError;
      }
      if id < nextStreamToOpen {
        if id in streams && !streams[id] {
          return Stream(id);
        }
        return NoStream;
      }
      OpenUpToEnd(V(), id);
      var newNum := nextStreamToOpen;
      while newNum <= id
        modifies this`streams, this`newStreamChan, this`numOpened
        invariant OpenUpTo(V().(nextToOpen := newNum), id) == OpenUpTo(old(V()), id)
        invariant newNum > id ==> newNum == OpenUpTo(old(V()), id).nextToOpen
        decreases id - newNum
      {
        streams, numOpened := streams[newNum := false], numOpened + 1;
        newStreamChan := true;
        newNum := newNum + 4;
      }
      nextStreamToOpen := id + 4;
      r := Stream(id);
    }

    /** DeleteStream */
    method DeleteById(id: int) returns (ok: bool)
      requires Valid()
      modifies this`streams, this`deleted, this`maxStream, this`limits
      ensures (V(), ok) == DeleteStream(old(V()), id)
      ensures Valid()
    {
      hide Inv, Delete;
      DeleteStreamInv(V(), id);
      if id !in streams {
        return false;
      }
      if id >= nextStreamToAccept {
        if streams[id] {
          return false;
        }
        streams := streams[id := true];
        return true;
      }
      DeleteAccepted(id);
      ok := true;
    }

    /** The part of deleteStream for a stream that was accepted. */
    method DeleteAccepted(id: int)
      modifies this`streams, this`deleted, this`maxStream, this`limits
      ensures V() == Delete(old(V()), id)
      ensures old(Deletable(V(), id)) ==> Valid()
    {
      hide Deletable, Inv;
      if Deletable(V(), id) {
        DeleteInv(V(), id);
      }
      streams, deleted := streams - {id}, deleted + 1;
      QueueMaxStreams();
    }

    /** The peer may open another stream, but never one with a stream number that is too large. */
    method QueueMaxStreams()
      modifies this`maxStream, this`limits
      ensures V() == Grant(old(V()))
      ensures old(Owing(V())) ==> Credited(V())
    {
      hide Owing, Credited;
      if Owing(V()) {
        GrantCredits(V());
      }
      if maxNumStreams > |streams| {
        var max := nextStreamToOpen + 4 * (maxNumStreams - |streams| - 1);
        if max <= MAX_STREAM_ID {
          maxStream, limits := max, limits + [StreamNum(max)];
        }
      }
    }

    /** CloseWithError, once; the streams are told elsewhere. */
    method Close(err: nat)
      requires Valid() && closeErr == None
      modifies this`closeErr
      ensures V() == CloseWithError(old(V()), err)
      ensures Valid()
    {
      R.StepInv(V(), R.Closes(err));
      closeErr := Some(err);
    }
  }

  lemma OpenUpToEnd(s: State, id: int)
    requires Inv(s) && OfKind(s.first, id) && s.nextToOpen <= id <= s.maxStream
    ensures OpenUpTo(s, id).nextToOpen == id + 4
  {
    OpenUpToInv(s, id);
  }
}

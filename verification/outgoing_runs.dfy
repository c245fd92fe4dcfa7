/** Every interleaving of the calls of an outgoing streams map. */
module OutgoingRuns {
  import opened Protocol
  import opened OutgoingSpec

  datatype Event =
    | OpenNow
    | OpenSync(ctxDone: bool)
    | Received(call: nat)
    | Cancelled(call: nat)
    | CancelDone(call: nat)
    | ReceiveDone(call: nat)
    | Deleted(id: int)
    | MaxStreams(id: int)
    | Closed(err: nat)

  /** The event can happen: a call is at the point that it moves on from, and limits are given in stream IDs of the
      right kind. */
  predicate Allowed(s: State, e: Event) {
    match e
    case OpenNow => true
    case OpenSync(_) => true
    case Received(w) => CanReceive(s, w)
    case Cancelled(w) => w < |s.calls| && s.calls[w].pc == Waiting
    case CancelDone(w) => w < |s.calls| && s.calls[w].pc == Cancelling
    case ReceiveDone(w) => w < |s.calls| && s.calls[w].pc == Woken
    case Deleted(_) => true
    case MaxStreams(id) => Aligned(s, id)
    case Closed(_) => true
  }

  /** Indexing the empty queue would panic. */
  predicate NoPanic(s: State, e: Event) {
    s.maxStream >= -1 && (e.ReceiveDone? && s.closeErr == None && s.nextStream <= s.maxStream ==> s.openQueue != [])
  }

  function Next(s: State, e: Event): State
    requires Allowed(s, e) && NoPanic(s, e)
  {
    match e
    case OpenNow => OpenStream(s).0
    case OpenSync(ctxDone) => OpenStreamSync(s, ctxDone).0
    case Received(w) => Receive(s, w)
    case Cancelled(w) => Cancel(s, w)
    case CancelDone(w) => FinishCancel(s, w)
    case ReceiveDone(w) => FinishReceive(s, w).0
    case Deleted(id) => DeleteStream(s, id).0
    case MaxStreams(id) => SetMaxStream(s, id)
    case Closed(err) => CloseWithError(s, err)
  }

  function Fresh(first: int): State {
    State(first, {}, [], first, INVALID_STREAM_ID, false, None, [], [], [], [])
  }

  lemma FreshInv(first: int)
    requires 0 <= first < 4
    ensures Inv(Fresh(first))
  {
  }

  lemma StepInv(s: State, e: Event)
    requires Inv(s) && Allowed(s, e)
    ensures NoPanic(s, e) && Inv(Next(s, e))
  {
    hide Inv;
    assert s.maxStream >= -1 by { Bounds(s); }
    match e
    case OpenNow => OpenStreamInv(s);
    case OpenSync(ctxDone) => OpenStreamSyncInv(s, ctxDone);
    case Received(w) => ReceiveInv(s, w);
    case Cancelled(w) => CancelInv(s, w);
    case CancelDone(w) => FinishCancelInv(s, w);
    case ReceiveDone(w) => FinishReceiveInv(s, w);
    case Deleted(id) => DeleteStreamInv(s, id);
    case MaxStreams(id) => SetMaxStreamInv(s, id);
    case Closed(err) => CloseInv(s, err);
  }

  lemma Bounds(s: State)
    requires Inv(s)
    ensures s.maxStream >= -1
  {
  }

  /** A run: every event is allowed, and leads from one state to the next. */
  ghost predicate IsRun(states: seq<State>, events: seq<Event>) {
    && |states| == |events| + 1
    && (forall i :: 0 <= i < |events| ==> Step(states[i], events[i], states[i + 1]))
  }

  ghost predicate Step(s: State, e: Event, s': State) {
    Allowed(s, e) && (NoPanic(s, e) ==> s' == Next(s, e))
  }

  lemma {:induction false} RunInv(states: seq<State>, events: seq<Event>, n: nat)
    requires IsRun(states, events) && n <= |events|
    requires 0 <= states[0].first < 4 && states[0] == Fresh(states[0].first)
    ensures Inv(states[n])
    decreases n
  {
    hide Inv, Next, Allowed, NoPanic;
    if n == 0 {
      FreshInv(states[0].first);
    } else {
      RunInv(states, events, n - 1);
      assert Step(states[n - 1], events[n - 1], states[n]);
      StepInv(states[n - 1], events[n - 1]);
    }
  }

  /** No lost wake-up: whenever calls wait and a stream could be opened, the first of them has been or can be woken up,
      or is giving up, and nobody else is. A signal is never sent on a closed channel. */
  lemma NoLostWakeup(states: seq<State>, events: seq<Event>, n: nat)
    requires IsRun(states, events) && n <= |events|
    requires 0 <= states[0].first < 4 && states[0] == Fresh(states[0].first)
    ensures var s := states[n];
            && (forall w :: w in s.openQueue ==> w < |s.calls| && !s.calls[w].closed)
            && (s.openQueue != [] && s.nextStream <= s.maxStream ==>
                  var head := s.openQueue[0];
                  head in s.openQueue && (CanReceive(s, head) || s.calls[head].pc == Woken
                                          || s.calls[head].pc == Cancelling))
            && (forall w :: w in s.openQueue && (CanReceive(s, w) || s.calls[w].pc == Woken) ==> w == s.openQueue[0])
  {
    RunInv(states, events, n);
    var s := states[n];
    if s.openQueue != [] {
      assert s.openQueue[0] in s.openQueue;
    }
  }

  /** No panic; streams are numbered without gaps and never above the limit; calls are served in their order; at most
      one STREAMS_BLOCKED is sent for every limit, and one is sent when there are more calls waiting than streams
      available. */
  lemma OpensInOrder(states: seq<State>, events: seq<Event>, n: nat)
    requires IsRun(states, events) && n <= |events|
    requires 0 <= states[0].first < 4 && states[0] == Fresh(states[0].first)
    ensures var s := states[n];
            && (n < |events| ==> NoPanic(s, events[n]))
            && (forall i :: 0 <= i < |s.ids| ==> s.ids[i] == s.first + 4 * i <= s.maxStream)
            && (forall i, j :: 0 <= i < j < |s.served| ==> s.served[i] < s.served[j])
            && (forall i, j :: 0 <= i < j < |s.blocked| ==> s.blocked[i] < s.blocked[j])
            && s.maxStream >= -1
            && (|s.openQueue| > Available(s) ==>
                  s.blockedSent && s.blocked != [] && s.blocked[|s.blocked| - 1] == Limit(s.maxStream))
  {
    RunInv(states, events, n);
    if n < |events| {
      assert Step(states[n], events[n], states[n + 1]);
      StepInv(states[n], events[n]);
    }
    if |states[n].openQueue| > Available(states[n]) {
      MoreWaiting(states[n]);
    }
  }

  lemma MoreWaiting(s: State)
    requires Inv(s) && |s.openQueue| > Available(s)
    ensures s.maxStream < s.nextStream - 4 + 4 * |s.openQueue|
  {
  }

  /** A stream is opened by a waiting call only if it is the first one in the queue, and by any other call only if
      nobody waits. */
  lemma OnlyHeadOpens(s: State, e: Event)
    requires Inv(s) && Allowed(s, e) && NoPanic(s, e)
    ensures Next(s, e).ids != s.ids ==>
              || (e.ReceiveDone? && s.openQueue != [] && e.call == s.openQueue[0])
              || ((e.OpenNow? || e.OpenSync?) && s.openQueue == [])
  {
    if e.ReceiveDone? && s.closeErr == None {
      WokenIsHead(s, e.call);
    }
  }

  /** When the map is closed, every call that is still blocked can go on, and then returns. */
  lemma CloseWakesAll(s: State, w: nat)
    requires Inv(s) && s.closeErr.Some? && w < |s.calls| && s.calls[w].pc != Returned
    ensures CanReceive(s, w) || s.calls[w].pc == Woken || s.calls[w].pc == Cancelling
    ensures s.calls[w].pc == Woken ==> FinishReceive(s, w).0.calls[w].pc == Returned
    ensures s.calls[w].pc == Cancelling ==> FinishCancel(s, w).calls[w].pc == Returned
  {
    if s.calls[w].pc == Cancelling {
      assert Remove([], w) == [];
    }
  }

  /** The first call in the queue goes on, as far as it can. */
  function HeadStep(s: State): State
    requires s.openQueue != [] && HeadReady(s, s.openQueue[0]) && s.closeErr == None
  {
    var head := s.openQueue[0];
    if s.calls[head].pc == Cancelling then FinishCancel(s, head)
    else FinishReceive(if s.calls[head].pc == Woken then s else Receive(s, head), head).0
  }

  predicate HeadReady(s: State, head: nat) {
    head < |s.calls| && (s.calls[head].pc == Cancelling || s.calls[head].pc == Woken || CanReceive(s, head))
  }

  lemma HeadIsReady(s: State)
    requires Inv(s) && s.closeErr == None && s.openQueue != [] && s.nextStream <= s.maxStream
    ensures HeadReady(s, s.openQueue[0])
  {
    assert s.openQueue[0] in s.openQueue;
  }

  lemma HeadStepInv(s: State)
    requires Inv(s) && s.closeErr == None && s.openQueue != [] && s.nextStream <= s.maxStream
    ensures HeadReady(s, s.openQueue[0]) && Inv(HeadStep(s))
  {
    hide Inv;
    HeadIsReady(s);
    var head := s.openQueue[0];
    if s.calls[head].pc == Cancelling {
      FinishCancelInv(s, head);
    } else {
      if s.calls[head].pc != Woken {
        ReceiveInv(s, head);
      }
      FinishReceiveInv(if s.calls[head].pc == Woken then s else Receive(s, head), head);
    }
  }

  /** The head leaves the queue, with a stream unless it is giving up; the other calls stay where they are. */
  lemma HeadLeaves(s: State)
    requires Increasing(s.openQueue) && s.closeErr == None && s.openQueue != [] && s.nextStream <= s.maxStream
    requires HeadReady(s, s.openQueue[0])
    ensures var s' := HeadStep(s);
            var head := s.openQueue[0];
            && s'.closeErr == None && s'.openQueue == s.openQueue[1..] && |s'.calls| == |s.calls|
            && (forall w :: 0 <= w < |s.calls| && w != head ==> s'.calls[w].pc == s.calls[w].pc)
            && (if s.calls[head].pc == Cancelling then s'.served == s.served && Available(s') == Available(s)
                else s'.served == s.served + [head] && Available(s') == Available(s) - 1)
  {
    RemoveHead(s.openQueue);
  }

  lemma RemoveHead(q: seq<nat>)
    requires Increasing(q) && q != []
    ensures Remove(q, q[0]) == q[1..]
  {
    NotThere(q[1..], q[0]);
  }

  lemma {:induction false} NotThere(q: seq<nat>, w: nat)
    requires w !in q
    ensures Remove(q, w) == q
  {
    if q != [] {
      NotThere(q[1..], w);
    }
  }

  lemma Ordered(s: State)
    requires Inv(s)
    ensures Increasing(s.openQueue)
  {
  }

  /** The calls that can go on do so, until none can. */
  ghost function Settle(s: State): State
    requires Inv(s) && s.closeErr == None
    decreases |s.openQueue|
  {
    if s.openQueue == [] || s.nextStream > s.maxStream then s
    else
      HeadStepInv(s);
      Ordered(s);
      HeadLeaves(s);
      Settle(HeadStep(s))
  }

  ghost predicate NobodyGivesUp(s: State) {
    forall w :: w in s.openQueue && w < |s.calls| ==> s.calls[w].pc != Cancelling
  }

  /** Left alone, the waiting calls take all the streams they can, first come, first served. */
  lemma {:induction false} Settles(s: State)
    requires Inv(s) && s.closeErr == None
    ensures Settle(s).openQueue == [] || Settle(s).nextStream > Settle(s).maxStream
    ensures NobodyGivesUp(s) ==>
              var k := Min(Available(s), |s.openQueue|);
              Settle(s).served == s.served + s.openQueue[..k] && Settle(s).openQueue == s.openQueue[k..]
    decreases |s.openQueue|
  {
    hide Inv, HeadStep;
    if s.openQueue != [] && s.nextStream <= s.maxStream {
      HeadStepInv(s);
      Ordered(s);
      HeadLeaves(s);
      Settles(HeadStep(s));
      var q := s.openQueue;
      TailOf(q);
      if NobodyGivesUp(s) {
        assert q[0] in q;
        assert NobodyGivesUp(HeadStep(s));
        var k := Min(Available(s), |q|);
        assert [q[0]] + q[1..][..k - 1] == q[..k];
        assert q[1..][k - 1..] == q[k..];
      }
    }
  }
}

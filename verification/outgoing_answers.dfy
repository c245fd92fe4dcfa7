/** What an outgoing streams map answers, in terms of what has happened to it. */
module OutgoingAnswers {
  import opened Protocol
  import opened OutgoingSpec
  import opened OutgoingRuns

  /** The highest limit given by the first `n` events. */
  function Highest(events: seq<Event>, n: nat): int
    requires n <= |events|
  {
    if n == 0 then INVALID_STREAM_ID
    else
      var before := Highest(events, n - 1);
      if events[n - 1].MaxStreams? && events[n - 1].id > before then events[n - 1].id else before
  }

  /** The error with which the map was closed last. */
  function LastError(events: seq<Event>, n: nat): Option<nat>
    requires n <= |events|
  {
    if n == 0 then None
    else if events[n - 1].Closed? then Some(events[n - 1].err)
    else LastError(events, n - 1)
  }

  /** What a call returns when the event happens, if it returns then or is blocked. */
  function Answer(s: State, e: Event): Option<Outcome>
    requires Allowed(s, e) && NoPanic(s, e)
  {
    match e
    case OpenNow => Some(OpenStream(s).1)
    case OpenSync(ctxDone) => Some(OpenStreamSync(s, ctxDone).1)
    case ReceiveDone(w) => FinishReceive(s, w).1
    case _ => None
  }

  /** No call is blocked. */
  ghost predicate NobodyWaits(s: State) {
    forall w :: 0 <= w < |s.calls| ==> s.calls[w].pc == Returned
  }

  ghost predicate FromNew(states: seq<State>, events: seq<Event>) {
    IsRun(states, events) && 0 <= states[0].first < 4 && states[0] == Fresh(states[0].first)
  }

  lemma StepFacts(s: State, e: Event)
    requires Numbered(s) && Allowed(s, e) && NoPanic(s, e)
    ensures var s' := Next(s, e);
            && s'.first == s.first
            && s'.maxStream == (if e.MaxStreams? && e.id > s.maxStream then e.id else s.maxStream)
            && s'.closeErr == (if e.Closed? then Some(e.err) else s.closeErr)
            && (s'.ids == s.ids || s'.ids == s.ids + [s.nextStream])
            && (forall id ::
                  id in s'.streams <==> (id in s.streams && e != Deleted(id)) || (id in s'.ids && id !in s.ids))
  {
  }

  lemma IsNumbered(s: State)
    requires Inv(s)
    ensures Numbered(s)
  {
  }

  lemma {:induction false} RunFacts(states: seq<State>, events: seq<Event>, n: nat)
    requires FromNew(states, events) && n <= |events|
    ensures states[n].first == states[0].first && states[n].maxStream == Highest(events, n)
    ensures states[n].closeErr == LastError(events, n)
  {
    hide Next, Allowed, NoPanic, Inv;
    if n > 0 {
      RunFacts(states, events, n - 1);
      RunInv(states, events, n - 1);
      var s, e := states[n - 1], events[n - 1];
      assert Step(s, e, states[n]);
      StepInv(s, e);
      IsNumbered(s);
      StepFacts(s, e);
    }
  }

  /** The stream that is opened next. */
  function NextId(s: State): int {
    s.first + 4 * |s.ids|
  }

  /** What the calls return in every run: after the map was closed, the error with which it was closed; after the end of
      the context, its error. Otherwise a call that is woken up returns the next stream, which is always within the
      limit; and a call that is not blocked returns the next stream if and only if nobody waits and the limit allows it.
      The stream returned is the one that is opened, and no other one is. */
  lemma AnswersExactly(states: seq<State>, events: seq<Event>, n: nat)
    requires FromNew(states, events) && n < |events|
    ensures var s, e, id, closed := states[n], events[n], NextId(states[n]), LastError(events, n);
            var free := NobodyWaits(s) && id <= Highest(events, n);
            && Allowed(s, e) && NoPanic(s, e)
            && (e.OpenNow? ==>
                  Answer(s, e) == Some(if closed.Some? then MapClosed(closed.value)
                                       else if free then Stream(id) else LimitReached))
            && (e.OpenSync? ==>
                  Answer(s, e) == Some(if closed.Some? then MapClosed(closed.value)
                                       else if e.ctxDone then ContextDone
                                       else if free then Stream(id) else Blocked(|s.calls|)))
            && (e.ReceiveDone? ==>
                  Answer(s, e) == Some(if closed.Some? then MapClosed(closed.value) else Stream(id)))
            && states[n + 1].ids == (if Answer(s, e) == Some(Stream(id)) then s.ids + [id] else s.ids)
  {
    hide Inv;
    RunFacts(states, events, n);
    RunInv(states, events, n);
    var s, e := states[n], events[n];
    assert Step(s, e, states[n + 1]);
    StepInv(s, e);
    QueueMeans(s);
    if e.ReceiveDone? && s.closeErr == None {
      WokenIsHead(s, e.call);
    }
  }

  lemma QueueMeans(s: State)
    requires Inv(s)
    ensures s.nextStream == NextId(s)
    ensures s.closeErr == None ==> (s.openQueue == [] <==> NobodyWaits(s))
  {
    if s.openQueue != [] {
      assert s.openQueue[0] in s.openQueue;
    }
  }

  /** The stream was deleted after it had been opened. */
  ghost predicate Gone(states: seq<State>, events: seq<Event>, n: nat, id: int)
    requires n <= |events| && n <= |states|
  {
    exists j :: 0 <= j < n && events[j] == Deleted(id) && id in states[j].ids
  }

  lemma {:induction false} RunStreams(states: seq<State>, events: seq<Event>, n: nat, id: int)
    requires FromNew(states, events) && n <= |events|
    ensures id in states[n].streams <==> id in states[n].ids && !Gone(states, events, n, id)
    ensures Gone(states, events, n, id) ==> id in states[n].ids
  {
    hide Next, Allowed, NoPanic, Inv;
    if n > 0 {
      RunStreams(states, events, n - 1, id);
      RunInv(states, events, n - 1);
      var s, e := states[n - 1], events[n - 1];
      assert Step(s, e, states[n]);
      StepInv(s, e);
      IsNumbered(s);
      StepFacts(s, e);
      if Gone(states, events, n - 1, id) {
        var j :| 0 <= j < n - 1 && events[j] == Deleted(id) && id in states[j].ids;
        assert 0 <= j < n && events[j] == Deleted(id);
      }
    }
  }

  /** A deletion succeeds if and only if the stream was opened and not deleted before. */
  lemma DeletesExactly(states: seq<State>, events: seq<Event>, n: nat, id: int)
    requires FromNew(states, events) && n <= |events|
    ensures DeleteStream(states[n], id).1 <==> id in states[n].ids && !Gone(states, events, n, id)
  {
    RunStreams(states, events, n, id);
  }
}

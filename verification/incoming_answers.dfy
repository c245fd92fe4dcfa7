/** What an incoming streams map answers, in terms of what has happened to it. */
module IncomingAnswers {
  import opened Protocol
  import opened IncomingSpec
  import opened IncomingRuns

  /** How many streams the peer was told that it may open: at first the maximum number, then by MAX_STREAMS frames. */
  function Told(s: State): nat {
    if s.limits == [] then s.maxNumStreams else s.limits[|s.limits| - 1]
  }

  /** The peer may use this stream. */
  predicate Within(s: State, id: int) {
    id <= Id(s.first, Told(s))
  }

  /** The peer has used this stream, or one behind it, within the limit that it was told. */
  ghost predicate UsedBy(states: seq<State>, events: seq<Event>, j: nat, id: int)
    requires j < |states| && j < |events|
  {
    events[j].PeerUses? && id <= events[j].id && Within(states[j], events[j].id)
  }

  ghost predicate Used(states: seq<State>, events: seq<Event>, n: nat, id: int)
    requires n <= |events| && n <= |states|
  {
    exists j :: 0 <= j < n && UsedBy(states, events, j, id)
  }

  /** It was deleted after that. */
  ghost predicate Gone(states: seq<State>, events: seq<Event>, n: nat, id: int)
    requires n <= |events| && n <= |states|
  {
    exists j :: 0 <= j < n && events[j] == Deletes(id) && Used(states, events, j, id)
  }

  // ---- One step. ----

  predicate Open(s: State, id: int) {
    OfKind(s.first, id) && id < s.nextToOpen
  }

  predicate Live(s: State, id: int) {
    id in s.streams && !s.streams[id]
  }

  /** Exactly the streams up to `id` are added. */
  lemma {:induction false} OpenUpToAdds(s: State, id: int, x: int)
    requires Contiguous(s) && OfKind(s.first, id) && s.nextToOpen - 4 <= id
    ensures var s' := OpenUpTo(s, id);
            && (x in s'.streams <==> x in s.streams || (OfKind(s.first, x) && s.nextToOpen <= x <= id))
            && (x in s.streams ==> s'.streams[x] == s.streams[x])
            && (x in s'.streams && x !in s.streams ==> !s'.streams[x])
            && s'.nextToOpen == id + 4
    decreases id - s.nextToOpen
  {
    hide OfKind;
    if s.nextToOpen <= id {
      OpenOneContiguous(s);
      Multiple(s, id);
      Kinds(s.first, s.numOpened);
      OpenUpToAdds(OpenOne(s), id, x);
    } else {
      LastOpen(s, id);
    }
  }

  lemma LastOpen(s: State, id: int)
    requires Contiguous(s) && OfKind(s.first, id) && s.nextToOpen - 4 <= id < s.nextToOpen
    ensures s.nextToOpen == id + 4
  {
  }

  /** Whether a stream is open, and whether it is alive, changes only by what the peer uses and by deletions. */
  lemma StepAnswers(s: State, e: Event, x: int)
    requires Inv(s) && Allowed(s, e) && OfKind(s.first, x)
    ensures var s' := Next(s, e);
            && (Open(s', x) <==> Open(s, x) || (e.PeerUses? && x <= e.id <= s.maxStream))
            && (Live(s', x) <==> (Live(s, x) && e != Deletes(x)) || (Open(s', x) && !Open(s, x)))
  {
    hide OfKind, OpenUpTo, Credited, Grant;
    match e {
      case PeerUses(id) =>
        UseAnswers(s, id, x);
      case Looks(w) =>
        var id := s.nextToAccept;
        var s' := s.(callers := s.callers[w := Returned], nextToAccept := id + 4, accepted := s.accepted + [id]);
        DeleteOne(s', id, x);
      case Deletes(id) =>
        DeleteOne(s, id, x);
      case _ =>
    }
    StreamsAreOpen(s, x);
  }

  lemma StreamsAreOpen(s: State, x: int)
    requires Contiguous(s)
    ensures x in s.streams ==> Open(s, x) && (s.streams[x] ==> x >= s.nextToAccept)
  {
  }

  lemma DeleteOne(s: State, id: int, x: int)
    ensures var s' := Delete(s, id);
            && s'.first == s.first && s'.nextToOpen == s.nextToOpen
            && (x in s'.streams <==> x in s.streams && x != id) && (x in s'.streams ==> s'.streams[x] == s.streams[x])
  {
  }

  lemma UseAnswers(s: State, id: int, x: int)
    requires Inv(s) && OfKind(s.first, id) && OfKind(s.first, x)
    ensures var s' := GetOrOpenStream(s, id).0;
            && (Open(s', x) <==> Open(s, x) || x <= id <= s.maxStream)
            && (Live(s', x) <==> Live(s, x) || (Open(s', x) && !Open(s, x)))
  {
    hide OfKind, OpenUpTo, Credited;
    OpenUpToSame(s, id);
    StreamsAreOpen(s, x);
    if s.nextToOpen <= id <= s.maxStream {
      OpenUpToAdds(s, id, x);
      Apart(s, id, x);
    }
  }

  /** Streams of one kind are four apart. */
  lemma Apart(s: State, id: int, x: int)
    requires OfKind(s.first, id) && OfKind(s.first, x)
    ensures x <= id <==> x < id + 4
  {
  }

  /** The limit is the one that the peer was told. */
  predicate LimitKnown(s: State) {
    s.maxStream == Id(s.first, Told(s))
  }

  lemma StepTells(s: State, e: Event)
    requires Inv(s) && Allowed(s, e) && LimitKnown(s)
    ensures LimitKnown(Next(s, e))
  {
    hide OfKind, OpenUpTo, Delete;
    match e {
      case PeerUses(id) =>
        OpenUpToSame(s, id);
      case Looks(w) =>
        var id := s.nextToAccept;
        var s' := s.(callers := s.callers[w := Returned], nextToAccept := id + 4, accepted := s.accepted + [id]);
        DeleteTells(s', id);
      case Deletes(id) =>
        DeleteTells(s, id);
      case _ =>
    }
  }

  lemma DeleteTells(s: State, id: int)
    requires 0 <= s.first < 4 && s.nextToOpen == s.first + 4 * s.numOpened && LimitKnown(s)
    ensures LimitKnown(Delete(s, id))
  {
    var s' := s.(streams := s.streams - {id}, deleted := s.deleted + 1);
    if Delete(s, id) != s' {
      var k := s.maxNumStreams - |s'.streams| - 1;
      assert s'.nextToOpen + 4 * k == s.first + 4 * (s.numOpened + k);
      NumOf(s.first, s.numOpened + k);
    }
  }

  lemma NumOf(first: int, k: nat)
    requires 0 <= first < 4
    ensures StreamNum(first + 4 * k) == k + 1 && Id(first, k + 1) == first + 4 * k
  {
  }

  // ---- Whole runs. ----

  ghost predicate FromNew(states: seq<State>, events: seq<Event>) {
    && IsRun(states, events) && 0 <= states[0].first < 4 && states[0].maxNumStreams <= MAX_STREAM_COUNT
    && states[0] == Fresh(states[0].first, states[0].maxNumStreams)
  }

  lemma {:induction false} RunTells(states: seq<State>, events: seq<Event>, n: nat)
    requires FromNew(states, events) && n <= |events|
    ensures Inv(states[n]) && LimitKnown(states[n]) && states[n].first == states[0].first
  {
    hide Inv, Next, LimitKnown;
    if n == 0 {
      FreshInv(states[0].first, states[0].maxNumStreams);
      FreshTells(states[0].first, states[0].maxNumStreams);
    } else {
      RunTells(states, events, n - 1);
      assert Step(states[n - 1], events[n - 1], states[n]);
      StepInv(states[n - 1], events[n - 1]);
      StepTells(states[n - 1], events[n - 1]);
      StepGrows(states[n - 1], events[n - 1]);
    }
  }

  lemma FreshTells(first: int, maxNumStreams: nat)
    ensures LimitKnown(Fresh(first, maxNumStreams))
  {
  }

  /** A stream is open if and only if the peer has used it, and alive unless it was deleted after that. */
  lemma {:induction false} RunAnswers(states: seq<State>, events: seq<Event>, n: nat, x: int)
    requires FromNew(states, events) && n <= |events| && OfKind(states[0].first, x)
    ensures Open(states[n], x) <==> Used(states, events, n, x)
    ensures Live(states[n], x) <==> Used(states, events, n, x) && !Gone(states, events, n, x)
  {
    hide Inv, Next, UsedBy, OfKind, Allowed;
    RunTells(states, events, n);
    if n == 0 {
      NoneOpen(states[0].first, states[0].maxNumStreams, x);
    } else {
      RunAnswers(states, events, n - 1, x);
      RunTells(states, events, n - 1);
      assert Step(states[n - 1], events[n - 1], states[n]);
      StepAnswers(states[n - 1], events[n - 1], x);
      UsedNext(states, events, n - 1, x);
      GoneNext(states, events, n - 1, x);
    }
  }

  lemma NoneOpen(first: int, maxNumStreams: nat, x: int)
    requires OfKind(first, x)
    ensures !Open(Fresh(first, maxNumStreams), x)
  {
  }

  lemma UsedNext(states: seq<State>, events: seq<Event>, n: nat, x: int)
    requires n < |events| && n < |states| && LimitKnown(states[n])
    ensures Used(states, events, n + 1, x) <==>
            Used(states, events, n, x) || (events[n].PeerUses? && x <= events[n].id <= states[n].maxStream)
  {
    if UsedBy(states, events, n, x) {
      assert Used(states, events, n + 1, x);
    }
    if Used(states, events, n, x) {
      var j :| 0 <= j < n && UsedBy(states, events, j, x);
      assert 0 <= j < n + 1 && UsedBy(states, events, j, x);
    }
  }

  lemma GoneNext(states: seq<State>, events: seq<Event>, n: nat, x: int)
    requires n < |events| && n < |states|
    ensures Gone(states, events, n + 1, x) <==>
            Gone(states, events, n, x) || (events[n] == Deletes(x) && Used(states, events, n, x))
    ensures Gone(states, events, n, x) ==> Used(states, events, n, x)
  {
    if Gone(states, events, n, x) {
      GoneWasUsed(states, events, n, x);
    }
  }

  /** What the map answers in every run, in terms of the events before: an ID above the limit that the peer was told is
      an error; a stream that was deleted after it had been used is not returned; every other one is. A deletion
      succeeds if and only if the stream was used and not deleted before. */
  lemma AnswersExactly(states: seq<State>, events: seq<Event>, n: nat, id: int)
    requires FromNew(states, events) && n <= |events| && OfKind(states[0].first, id)
    ensures GetOrOpenStream(states[n], id).1 ==
            if !Within(states[n], id) then LimitError
            else if Gone(states, events, n, id) then NoStream
            else Stream(id)
    ensures DeleteStream(states[n], id).1 <==> Used(states, events, n, id) && !Gone(states, events, n, id)
  {
    hide Inv, Next, Used, Gone, OfKind;
    RunTells(states, events, n);
    RunAnswers(states, events, n, id);
    if Gone(states, events, n, id) {
      GoneWasUsed(states, events, n, id);
    }
    AnswersNow(states[n], id);
  }

  lemma GoneWasUsed(states: seq<State>, events: seq<Event>, n: nat, x: int)
    requires n <= |events| && n <= |states| && Gone(states, events, n, x)
    ensures Used(states, events, n, x)
  {
    var j :| 0 <= j < n && events[j] == Deletes(x) && Used(states, events, j, x);
    var i :| 0 <= i < j && UsedBy(states, events, i, x);
    assert 0 <= i < n && UsedBy(states, events, i, x);
  }

  lemma AnswersNow(s: State, id: int)
    requires Inv(s) && LimitKnown(s) && OfKind(s.first, id)
    ensures GetOrOpenStream(s, id).1 ==
            if !Within(s, id) then LimitError else if Open(s, id) && !Live(s, id) then NoStream else Stream(id)
    ensures DeleteStream(s, id).1 <==> Live(s, id)
  {
    hide OfKind, Credited;
    StreamsAreOpen(s, id);
  }

  ghost predicate Closed(events: seq<Event>, n: nat) {
    exists j :: 0 <= j < n && j < |events| && events[j].Closes?
  }

  lemma {:induction false} RunCloses(states: seq<State>, events: seq<Event>, n: nat)
    requires FromNew(states, events) && n <= |events|
    ensures states[n].closeErr.Some? <==> Closed(events, n)
  {
    hide Inv, OpenUpTo, OfKind;
    if n > 0 {
      RunCloses(states, events, n - 1);
      var s, e := states[n - 1], events[n - 1];
      assert Step(s, e, states[n]);
      if e.PeerUses? {
        OpenUpToSame(s, e.id);
      }
    }
  }

  /** AcceptStream returns the streams in order: the next one if and only if the peer has used it and the map is not
      closed. */
  lemma AcceptsNext(states: seq<State>, events: seq<Event>, n: nat, w: nat)
    requires FromNew(states, events) && n <= |events| && w < |states[n].callers|
    ensures var id := states[0].first + 4 * |states[n].accepted|;
            && Look(states[n], w).1 ==
               (if !Closed(events, n) && Used(states, events, n, id) then Some(id) else None)
            && Look(states[n], w).0.accepted ==
               states[n].accepted + (if !Closed(events, n) && Used(states, events, n, id) then [id] else [])
  {
    hide Next, Used, Closed;
    RunTells(states, events, n);
    RunCloses(states, events, n);
    var s, id := states[n], states[0].first + 4 * |states[n].accepted|;
    Kinds(s.first, |s.accepted|);
    RunAnswers(states, events, n, id);
  }

  /** Where the calls of AcceptStream are: a call looks for a stream when it begins and when it has received the signal;
      then it returns if the map is closed or the next stream was used, and waits otherwise, until its context ends. */
  ghost function Positions(states: seq<State>, events: seq<Event>, n: nat): seq<Caller>
    requires n <= |events| && n <= |states|
  {
    if n == 0 then []
    else
      var before, s := Positions(states, events, n - 1), states[n - 1];
      match events[n - 1]
      case AcceptBegins => before + [Looking]
      case Looks(w) =>
        if w >= |before| then before
        else if Closed(events, n - 1) || Used(states, events, n - 1, states[0].first + 4 * |s.accepted|) then
          before[w := Returned]
        else before[w := Waiting]
      case Receives(w) => if w >= |before| then before else before[w := Looking]
      case GivesUp(w) => if w >= |before| then before else before[w := Returned]
      case _ => before
  }

  /** There is a signal: a stream was opened since a call began or received one. */
  ghost predicate Signal(states: seq<State>, events: seq<Event>, n: nat)
    requires n <= |events| && n <= |states|
  {
    if n == 0 then false
    else
      match events[n - 1]
      case AcceptBegins => false
      case Receives(_) => false
      case PeerUses(id) =>
        || Signal(states, events, n - 1)
        || (Within(states[n - 1], id) && !Used(states, events, n - 1, id))
      case _ => Signal(states, events, n - 1)
  }

  /** In every run, the calls are where they should be, and the signal is. */
  lemma {:induction false} CallsFollow(states: seq<State>, events: seq<Event>, n: nat)
    requires FromNew(states, events) && n <= |events|
    ensures states[n].callers == Positions(states, events, n)
    ensures states[n].token <==> Signal(states, events, n)
  {
    hide Inv, Used, Closed, OpenUpTo, Delete, OfKind;
    if n > 0 {
      CallsFollow(states, events, n - 1);
      var s, e := states[n - 1], events[n - 1];
      assert Step(s, e, states[n]);
      RunTells(states, events, n - 1);
      match e {
        case Looks(w) =>
          AcceptsNext(states, events, n - 1, w);
          RunCloses(states, events, n - 1);
          LookMoves(s, w);
        case PeerUses(id) =>
          OpenUpToSame(s, id);
          RunAnswers(states, events, n - 1, id);
        case _ =>
          OthersMove(s, e);
      }
    }
  }

  /** Where the calls are after an event that neither looks for a stream nor opens one. */
  lemma OthersMove(s: State, e: Event)
    requires !e.Looks? && !e.PeerUses?
    requires Allowed(s, e)
    ensures var s' := Next(s, e);
            && s'.callers == (match e
                              case AcceptBegins => s.callers + [Looking]
                              case Receives(w) => s.callers[w := Looking]
                              case GivesUp(w) => s.callers[w := Returned]
                              case _ => s.callers)
            && s'.token == (s.token && !e.AcceptBegins? && !e.Receives?)
  {
  }

  lemma LookMoves(s: State, w: nat)
    requires w < |s.callers|
    ensures var (s', id) := Look(s, w);
            && s'.callers == s.callers[w := if s.closeErr.Some? || id.Some? then Returned else Waiting]
            && s'.token == s.token
  {
  }
}

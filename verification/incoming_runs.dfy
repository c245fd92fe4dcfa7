/** Every interleaving of the calls of an incoming streams map. */
module IncomingRuns {
  import opened Protocol
  import opened IncomingSpec

  datatype Event =
    | AcceptBegins
    | Looks(caller: nat)
    | Receives(caller: nat)
    | GivesUp(caller: nat)
    | PeerUses(id: int)
    | Deletes(id: int)
    | Closes(err: nat)

  /** The event can happen; no stream is opened after the map is closed, since that would panic, and it is closed once.
      */
  predicate Allowed(s: State, e: Event) {
    match e
    case AcceptBegins => true
    case Looks(w) => w < |s.callers| && s.callers[w] == Looking
    case Receives(w) => CanReceive(s, w)
    case GivesUp(w) => w < |s.callers| && s.callers[w] == Waiting
    case PeerUses(id) => OfKind(s.first, id) && (s.closeErr == None || id < s.nextToOpen || id > s.maxStream)
    case Deletes(_) => true
    case Closes(_) => s.closeErr == None
  }

  function Next(s: State, e: Event): State
    requires Allowed(s, e)
  {
    match e
    case AcceptBegins => BeginAccept(s)
    case Looks(w) => Look(s, w).0
    case Receives(w) => Receive(s, w)
    case GivesUp(w) => GiveUp(s, w)
    case PeerUses(id) => GetOrOpenStream(s, id).0
    case Deletes(id) => DeleteStream(s, id).0
    case Closes(err) => CloseWithError(s, err)
  }

  function Fresh(first: int, maxNumStreams: nat): State {
    State(first, maxNumStreams, map[], first, first, Id(first, maxNumStreams), false, None, [], 0, 0, [], [])
  }

  lemma FreshInv(first: int, maxNumStreams: nat)
    requires 0 <= first < 4 && maxNumStreams <= MAX_STREAM_COUNT
    ensures Inv(Fresh(first, maxNumStreams))
  {
  }

  lemma StepInv(s: State, e: Event)
    requires Inv(s) && Allowed(s, e)
    ensures Inv(Next(s, e))
  {
    hide Contiguous, Credited, OfKind;
    match e
    case Looks(w) => LookInv(s, w);
    case PeerUses(id) => GetOrOpenInv(s, id);
    case Deletes(id) => DeleteStreamInv(s, id);
    case _ =>
      SameCredit(s, Next(s, e));
      SameStreams(s, Next(s, e));
  }

  /** What the peer was told is never taken back, and a stream is accepted only as the next one. */
  lemma StepMonotone(s: State, e: Event)
    requires Inv(s) && Allowed(s, e)
    ensures Next(s, e).maxStream >= s.maxStream
    ensures s.limits <= Next(s, e).limits
    ensures Next(s, e).accepted == s.accepted || (e.Looks? && Next(s, e).accepted == s.accepted + [s.nextToAccept])
  {
    hide OfKind, Next, Allowed;
    StepInv(s, e);
    StepGrows(s, e);
  }

  lemma StepGrows(s: State, e: Event)
    requires Allowed(s, e)
    ensures var s' := Next(s, e);
            && s'.first == s.first && s'.maxNumStreams == s.maxNumStreams && s'.deleted >= s.deleted
            && s.limits <= s'.limits
            && (s'.accepted == s.accepted || (e.Looks? && s'.accepted == s.accepted + [s.nextToAccept]))
  {
    hide OfKind, OpenUpTo, Delete;
    match e
    case PeerUses(id) =>
      OpenUpToSame(s, id);
    case Looks(w) =>
      var id := s.nextToAccept;
      DeleteGrows(s.(callers := s.callers[w := Returned], nextToAccept := id + 4, accepted := s.accepted + [id]), id);
    case Deletes(id) =>
      DeleteGrows(s, id);
    case _ =>
  }

  lemma DeleteGrows(s: State, id: int)
    ensures var s' := Delete(s, id);
            && s'.first == s.first && s'.maxNumStreams == s.maxNumStreams && s'.deleted == s.deleted + 1
            && s.limits <= s'.limits && s'.accepted == s.accepted
  {
  }

  lemma {:induction false} OpenUpToSame(s: State, id: int)
    ensures var s' := OpenUpTo(s, id);
            s' == s.(streams := s'.streams, nextToOpen := s'.nextToOpen, numOpened := s'.numOpened, token := s'.token)
    ensures s.nextToOpen <= id ==> OpenUpTo(s, id).token
    decreases id - s.nextToOpen
  {
    if s.nextToOpen <= id {
      OpenUpToSame(OpenOne(s), id);
    }
  }

  ghost predicate IsRun(states: seq<State>, events: seq<Event>) {
    && |states| == |events| + 1
    && (forall i :: 0 <= i < |events| ==> Step(states[i], events[i], states[i + 1]))
  }

  ghost predicate Step(s: State, e: Event, s': State) {
    Allowed(s, e) && s' == Next(s, e)
  }

  /** In every state of a run the number of streams is within the limit, the peer was granted exactly the maximum number
      and the streams deleted, and streams are accepted once each, in order. */
  lemma {:induction false} RunCredit(states: seq<State>, events: seq<Event>, n: nat)
    requires IsRun(states, events) && n <= |events|
    requires 0 <= states[0].first < 4 && states[0].maxNumStreams <= MAX_STREAM_COUNT
    requires states[0] == Fresh(states[0].first, states[0].maxNumStreams)
    ensures var s := states[n];
            && Inv(s)
            && |s.streams| <= s.maxNumStreams
            && s.maxStream == Id(s.first, Credit(s))
            && (forall i :: 0 <= i < |s.accepted| ==> s.accepted[i] == s.first + 4 * i)
    ensures n > 0 ==> states[n - 1].maxStream <= states[n].maxStream
    decreases n
  {
    hide Allowed, Next, OfKind;
    if n == 0 {
      FreshInv(states[0].first, states[0].maxNumStreams);
    } else {
      RunCredit(states, events, n - 1);
      assert Step(states[n - 1], events[n - 1], states[n]);
      StepInv(states[n - 1], events[n - 1]);
      StepMonotone(states[n - 1], events[n - 1]);
    }
    WithinLimit(states[n]);
  }

  /** Another call of AcceptStream than `w`. */
  ghost predicate SomeoneElse(s: State, w: nat, c: Caller) {
    exists v :: 0 <= v < |s.callers| && v != w && s.callers[v] == c
  }

  /** The one step that leaves a call waiting in vain: another call accepts a stream while the one after it is there as
      well, no signal is left, and nobody else is looking. */
  lemma StrandedExactly(s: State, e: Event)
    requires Allowed(s, e) && !Stranded(s)
    ensures Stranded(Next(s, e)) <==>
              && e.Looks? && s.closeErr == None && s.nextToAccept in s.streams && s.nextToAccept + 4 in s.streams
              && !s.token
              && SomeoneElse(s, e.caller, Waiting) && !SomeoneElse(s, e.caller, Looking)
  {
    hide OfKind, OpenUpTo, Delete;
    match e
    case AcceptBegins =>
      assert BeginAccept(s).callers[|s.callers|] == Looking;
    case PeerUses(id) =>
      OpenUpToSame(s, id);
    case Looks(w) =>
      LookStrands(s, w);
    case Deletes(id) =>
      DeleteSame(s, id);
    case Receives(w) =>
      assert Receive(s, w).callers[w] == Looking;
    case GivesUp(w) =>
      CallerReturns(s, w, Returned);
    case Closes(_) =>
  }

  lemma CallerReturns(s: State, w: nat, c: Caller)
    requires w < |s.callers| && c != Looking
    ensures var s' := s.(callers := s.callers[w := c]);
            && (Someone(s', Looking) <==> SomeoneElse(s, w, Looking))
            && (Someone(s', Waiting) <==> c == Waiting || SomeoneElse(s, w, Waiting))
  {
    var s' := s.(callers := s.callers[w := c]);
    assert s'.callers[w] == c;
    forall c' | SomeoneElse(s, w, c')
      ensures Someone(s', c')
    {
      var v :| 0 <= v < |s.callers| && v != w && s.callers[v] == c';
      assert s'.callers[v] == c';
    }
    forall c' | c' != c && Someone(s', c')
      ensures SomeoneElse(s, w, c')
    {
      var v :| 0 <= v < |s'.callers| && s'.callers[v] == c';
      assert v != w && s.callers[v] == c';
    }
  }

  lemma LookStrands(s: State, w: nat)
    requires w < |s.callers| && s.callers[w] == Looking
    ensures Stranded(Look(s, w).0) <==>
              && s.closeErr == None && s.nextToAccept in s.streams && s.nextToAccept + 4 in s.streams && !s.token
              && SomeoneElse(s, w, Waiting) && !SomeoneElse(s, w, Looking)
  {
    hide Delete, SomeoneElse, Someone;
    CallerReturns(s, w, Returned);
    CallerReturns(s, w, Waiting);
    var id := s.nextToAccept;
    if s.closeErr == None && id in s.streams {
      var s' := s.(callers := s.callers[w := Returned], nextToAccept := id + 4, accepted := s.accepted + [id]);
      DeleteSame(s', id);
      SameCallers(s', s.(callers := s.callers[w := Returned]));
      SameCallers(Delete(s', id), s.(callers := s.callers[w := Returned]));
    }
  }

  lemma SameCallers(s: State, s': State)
    requires s.callers == s'.callers
    ensures forall c :: Someone(s, c) <==> Someone(s', c)
  {
  }

  lemma DeleteSame(s: State, id: int)
    ensures var s' := Delete(s, id);
            && s'.callers == s.callers && s'.nextToAccept == s.nextToAccept && s'.token == s.token
            && s'.closeErr == s.closeErr
            && s'.streams.Keys == s.streams.Keys - {id}
  {
  }

  /** As long as calls of AcceptStream do not overlap, none of them waits in vain. */
  lemma StepNotStranded(s: State, e: Event)
    requires !Stranded(s) && OneCaller(s) && Allowed(s, e)
    requires e.AcceptBegins? ==> NobodyAccepts(s)
    ensures !Stranded(Next(s, e)) && OneCaller(Next(s, e))
  {
    hide OfKind, OpenUpTo, Delete, Stranded;
    StrandedExactly(s, e);
    match e
    case PeerUses(id) =>
      OpenUpToSame(s, id);
    case Looks(w) =>
      var id := s.nextToAccept;
      DeleteSame(s.(callers := s.callers[w := Returned], nextToAccept := id + 4, accepted := s.accepted + [id]), id);
    case Deletes(id) =>
      DeleteSame(s, id);
    case _ =>
  }

  lemma {:induction false} RunNotStranded(states: seq<State>, events: seq<Event>, n: nat)
    requires IsRun(states, events) && n <= |events|
    requires states[0] == Fresh(states[0].first, states[0].maxNumStreams)
    requires forall i :: 0 <= i < |events| && events[i].AcceptBegins? ==> NobodyAccepts(states[i])
    ensures !Stranded(states[n]) && OneCaller(states[n])
    decreases n
  {
    hide Stranded, OneCaller, Next, Allowed, NobodyAccepts;
    if n == 0 {
      NobodyStranded(states[0]);
    } else {
      RunNotStranded(states, events, n - 1);
      assert Step(states[n - 1], events[n - 1], states[n]);
      StepNotStranded(states[n - 1], events[n - 1]);
    }
  }

  lemma NobodyStranded(s: State)
    requires s.callers == []
    ensures !Stranded(s) && OneCaller(s)
  {
  }

  /** The peer opens the first two streams at once. */
  lemma OpensTwo(s: State)
    requires s.nextToOpen == 0 && s.streams == map[] && s.maxStream >= 4
    ensures GetOrOpenStream(s, 4).0 ==
            s.(streams := map[0 := false, 4 := false], nextToOpen := 8, token := true, numOpened := s.numOpened + 2)
  {
    assert OpenUpTo(s, 4) == OpenUpTo(OpenOne(s), 4) == OpenUpTo(OpenOne(OpenOne(s)), 4) == OpenOne(OpenOne(s));
    assert OpenOne(OpenOne(s)).streams == map[0 := false, 4 := false];
  }

  /** The second of two calls drains the signal meant for the first one, and takes only one of the two streams. */
  lemma SecondCallDrainsSignal() returns (states: seq<State>, events: seq<Event>)
    ensures events == [AcceptBegins, Looks(0), PeerUses(4), AcceptBegins, Looks(1)]
    ensures IsRun(states, events) && states[0] == Fresh(0, 10) && Stranded(states[5])
  {
    hide GetOrOpenStream;
    var s0 := Fresh(0, 10);
    var s1 := BeginAccept(s0);
    var s2 := Look(s1, 0).0;
    assert s2.callers == [Waiting];
    OpensTwo(s2);
    var s3 := GetOrOpenStream(s2, 4).0;
    var s4 := BeginAccept(s3);
    assert s4.callers == [Waiting, Looking];
    var s5 := Look(s4, 1).0;
    assert s5.callers == [Waiting, Returned] && s5.callers[0] == Waiting;
    states, events := [s0, s1, s2, s3, s4, s5], [AcceptBegins, Looks(0), PeerUses(4), AcceptBegins, Looks(1)];
  }

  /** Two calls wait, and there is one signal for the two streams. */
  lemma OneSignalForTwo() returns (states: seq<State>, events: seq<Event>)
    ensures events == [AcceptBegins, Looks(0), AcceptBegins, Looks(1), PeerUses(4), Receives(0), Looks(0)]
    ensures IsRun(states, events) && states[0] == Fresh(0, 10) && Stranded(states[7])
  {
    hide GetOrOpenStream;
    var s0 := Fresh(0, 10);
    var s1 := BeginAccept(s0);
    var s2 := Look(s1, 0).0;
    assert s2.callers == [Waiting];
    var s3 := BeginAccept(s2);
    assert s3.callers == [Waiting, Looking];
    var s4 := Look(s3, 1).0;
    assert s4.callers == [Waiting, Waiting];
    OpensTwo(s4);
    var s5 := GetOrOpenStream(s4, 4).0;
    var s6 := Receive(s5, 0);
    assert s6.callers == [Looking, Waiting];
    var s7 := Look(s6, 0).0;
    assert s7.callers == [Returned, Waiting] && s7.callers[1] == Waiting;
    states := [s0, s1, s2, s3, s4, s5, s6, s7];
    events := [AcceptBegins, Looks(0), AcceptBegins, Looks(1), PeerUses(4), Receives(0), Looks(0)];
  }
}

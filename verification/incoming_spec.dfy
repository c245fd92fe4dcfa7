/** The lock regions of quic-go-bbr/streams_map_incoming.go as steps of a state machine. */
module IncomingSpec {
  import opened Protocol

  /** The largest number of streams for which there are stream IDs; protocol.MaxStreamID is one less than four times
      this. */
  const MAX_STREAM_COUNT := 0x1000_0000_0000_0000

  const MAX_STREAM_ID := 0x3FFF_FFFF_FFFF_FFFF

  /** A call of AcceptStream: about to look for a stream, waiting for a signal, or returned. */
  datatype Caller = Looking | Waiting | Returned

  /** `streams` says for every stream if it is to be deleted as soon as it is accepted. `token` is the content of
      newStreamChan. */
  datatype State = State(
    first: int, maxNumStreams: nat, streams: map<int, bool>, nextToAccept: int, nextToOpen: int, maxStream: int,
    token: bool,
    closeErr: Option<nat>, callers: seq<Caller>, numOpened: nat, deleted: nat, accepted: seq<int>, limits: seq<nat>)

  /** StreamNum.StreamID */
  function Id(first: int, n: nat): int {
    if n == 0 then -1 else first + 4 * (n - 1)
  }

  /** A stream ID of the kind of `first`. */
  predicate OfKind(first: int, id: int) {
    first <= id && (id - first) % 4 == 0
  }

  /** Streams are opened and accepted without gaps, and those opened but not accepted are all there. */
  ghost predicate Contiguous(s: State) {
    && 0 <= s.first < 4
    && s.nextToOpen == s.first + 4 * s.numOpened
    && s.nextToAccept == s.first + 4 * |s.accepted| <= s.nextToOpen
    && (forall i :: 0 <= i < |s.accepted| ==> s.accepted[i] == s.first + 4 * i)
    && (forall id :: id in s.streams ==> OfKind(s.first, id) && id < s.nextToOpen)
    && (forall id :: OfKind(s.first, id) && s.nextToAccept <= id < s.nextToOpen ==> id in s.streams)
    && (forall id :: id in s.streams && s.streams[id] ==> id >= s.nextToAccept)
  }

  /** How many streams the peer may have opened in total. */
  function Credit(s: State): int {
    Min(s.maxNumStreams + s.deleted, MAX_STREAM_COUNT)
  }

  /** The credit is the maximum number of streams and those deleted; the peer has not used more than that. */
  ghost predicate Credited(s: State) {
    && s.maxNumStreams <= MAX_STREAM_COUNT
    && |s.streams| + s.deleted == s.numOpened
    && s.numOpened <= Credit(s)
    && s.maxStream == Id(s.first, Credit(s))
    && (forall i, j :: 0 <= i < j < |s.limits| ==> s.limits[i] < s.limits[j])
    && (forall i :: 0 <= i < |s.limits| ==> s.limits[i] <= Credit(s))
  }

  ghost predicate Inv(s: State) {
    Contiguous(s) && Credited(s)
  }

  /** deleteStream */
  function DeleteStream(s: State, id: int): (State, bool) {
    if id !in s.streams then (s, false)
    else if id >= s.nextToAccept then
      if s.streams[id] then (s, false) else (s.(streams := s.streams[id := true]), true)
    else (Delete(s, id), true)
  }

  function Delete(s: State, id: int): State {
    Grant(s.(streams := s.streams - {id}, deleted := s.deleted + 1))
  }

  /** StreamID.StreamNum */
  function StreamNum(id: int): nat {
    if id < 0 then 0 else id / 4 + 1
  }

  /** The peer may open as many streams as there is room for. */
  function Grant(s: State): State {
    var max := s.nextToOpen + 4 * (s.maxNumStreams - |s.streams| - 1);
    if s.maxNumStreams > |s.streams| && max <= MAX_STREAM_ID then
      s.(maxStream := max, limits := s.limits + [StreamNum(max)])
    else s
  }

  /** AcceptStream, the part that drains newStreamChan. */
  function BeginAccept(s: State): State {
    s.(callers := s.callers + [Looking], token := false)
  }

  /** AcceptStream, with the lock held. */
  function Look(s: State, w: nat): (State, Option<int>)
    requires w < |s.callers|
  {
    var id := s.nextToAccept;
    if s.closeErr.Some? then (s.(callers := s.callers[w := Returned]), None)
    else if id !in s.streams then (s.(callers := s.callers[w := Waiting]), None)
    else
      var s' := s.(callers := s.callers[w := Returned], nextToAccept := id + 4, accepted := s.accepted + [id]);
      (if s.streams[id] then Delete(s', id) else s', Some(id))
  }

  /** AcceptStream receives from newStreamChan, which is closed together with the map. */
  predicate CanReceive(s: State, w: nat) {
    w < |s.callers| && s.callers[w] == Waiting && (s.token || s.closeErr.Some?)
  }

  function Receive(s: State, w: nat): State
    requires CanReceive(s, w)
  {
    s.(callers := s.callers[w := Looking], token := false)
  }

  /** The context of AcceptStream ends while it waits. */
  function GiveUp(s: State, w: nat): State
    requires w < |s.callers|
  {
    s.(callers := s.callers[w := Returned])
  }

  /** One round of the loop that opens streams. */
  function OpenOne(s: State): State {
    s.(streams := s.streams[s.nextToOpen := false], nextToOpen := s.nextToOpen + 4, token := true,
       numOpened := s.numOpened + 1)
  }

  /** All streams up to `id` are opened. */
  function OpenUpTo(s: State, id: int): State
    decreases id - s.nextToOpen
  {
    if s.nextToOpen > id then s else OpenUpTo(OpenOne(s), id)
  }

  /** GetOrOpenStream; there is no stream if it was deleted before. */
  datatype Lookup = LimitError | NoStream | Stream(id: int)

  function GetOrOpenStream(s: State, id: int): (State, Lookup) {
    if id > s.maxStream then (s, LimitError)
    else if id < s.nextToOpen then (s, if id in s.streams && !s.streams[id] then Stream(id) else NoStream)
    else (OpenUpTo(s, id), Stream(id))
  }

  function CloseWithError(s: State, err: nat): State {
    s.(closeErr := Some(err))
  }

  // ---- Every step keeps the invariant. ----

  lemma Kinds(first: int, n: nat)
    ensures OfKind(first, first + 4 * n)
    ensures forall id :: OfKind(first, id) && id > first + 4 * n ==> id >= first + 4 * n + 4
    ensures forall id :: OfKind(first, id) && id < first + 4 * n + 4 ==> id <= first + 4 * n
  {
  }

  lemma OpenOneInv(s: State)
    requires Inv(s) && s.nextToOpen <= s.maxStream
    ensures Inv(OpenOne(s)) && s.nextToOpen !in s.streams
  {
    hide OfKind;
    OpenOneContiguous(s);
    assert OpenOne(s).streams.Keys == s.streams.Keys + {s.nextToOpen};
    assert |OpenOne(s).streams| == |OpenOne(s).streams.Keys|;
  }

  lemma OpenOneContiguous(s: State)
    requires Contiguous(s)
    ensures Contiguous(OpenOne(s)) && s.nextToOpen !in s.streams
  {
    hide OfKind;
    Kinds(s.first, s.numOpened);
  }

  /** Opening up to `id` opens exactly the streams between, and then `id` is the last one opened. */
  lemma {:induction false} OpenUpToInv(s: State, id: int)
    requires Inv(s) && OfKind(s.first, id) && s.nextToOpen - 4 <= id <= s.maxStream
    ensures Inv(OpenUpTo(s, id)) && OpenUpTo(s, id).nextToOpen == id + 4
    ensures OpenUpTo(s, id).deleted == s.deleted && OpenUpTo(s, id).accepted == s.accepted
    ensures OpenUpTo(s, id).maxStream == s.maxStream
    ensures OpenUpTo(s, id).first == s.first
    decreases id - s.nextToOpen
  {
    if s.nextToOpen <= id {
      OpenOneInv(s);
      Multiple(s, id);
      OpenUpToInv(OpenOne(s), id);
    }
  }

  lemma Multiple(s: State, id: int)
    requires Contiguous(s) && OfKind(s.first, id) && s.nextToOpen <= id
    ensures s.nextToOpen == id || s.nextToOpen + 4 <= id
  {
    hide OfKind;
    Kinds(s.first, s.numOpened);
  }

  lemma GetOrOpenInv(s: State, id: int)
    requires Inv(s) && OfKind(s.first, id)
    ensures Inv(GetOrOpenStream(s, id).0)
    ensures s.nextToOpen <= id <= s.maxStream ==> id in GetOrOpenStream(s, id).0.streams
  {
    hide OfKind, Contiguous, Credited, OpenUpTo;
    if s.nextToOpen <= id <= s.maxStream {
      AcceptedAreOpen(s);
      OpenUpToInv(s, id);
      StillThere(s, OpenUpTo(s, id), id);
    }
  }

  lemma AcceptedAreOpen(s: State)
    requires Contiguous(s)
    ensures s.nextToAccept == s.first + 4 * |s.accepted| <= s.nextToOpen
  {
  }

  lemma StillThere(s: State, s': State, id: int)
    requires Contiguous(s') && OfKind(s.first, id) && s'.first == s.first && s'.accepted == s.accepted
    requires s.first + 4 * |s.accepted| <= id < s'.nextToOpen
    ensures id in s'.streams
  {
    hide OfKind;
  }

  lemma AcceptContiguous(s: State, w: nat)
    requires Contiguous(s) && w < |s.callers| && s.nextToAccept in s.streams
    ensures var s' := s.(callers := s.callers[w := Returned], nextToAccept := s.nextToAccept + 4,
                         accepted := s.accepted + [s.nextToAccept]);
            && (!s.streams[s.nextToAccept] ==> Contiguous(s'))
            && Contiguous(s'.(streams := s.streams - {s.nextToAccept}))
  {
    hide OfKind;
    Kinds(s.first, |s.accepted|);
  }

  lemma SameCredit(s: State, s': State)
    requires Credited(s) && s' == s.(callers := s'.callers, nextToAccept := s'.nextToAccept, accepted := s'.accepted,
                                     token := s'.token,
                                     closeErr := s'.closeErr)
    ensures Credited(s')
  {
  }

  lemma SameStreams(s: State, s': State)
    requires Contiguous(s) && s' == s.(callers := s'.callers, token := s'.token, closeErr := s'.closeErr)
    ensures Contiguous(s')
  {
  }

  lemma LookInv(s: State, w: nat)
    requires Inv(s) && w < |s.callers|
    ensures Inv(Look(s, w).0)
  {
    hide Contiguous, Credited;
    var id := s.nextToAccept;
    if s.closeErr == None && id in s.streams {
      var s' := s.(callers := s.callers[w := Returned], nextToAccept := id + 4, accepted := s.accepted + [id]);
      AcceptContiguous(s, w);
      SameCredit(s, s');
      if s.streams[id] {
        DeleteInv(s', id);
      }
    } else {
      SameCredit(s, Look(s, w).0);
      SameStreams(s, Look(s, w).0);
    }
  }

  /** A stream was deleted, and the peer was not told yet that it may open another one. */
  ghost predicate Owing(s: State) {
    && 0 <= s.first < 4 && s.maxNumStreams <= MAX_STREAM_COUNT && s.deleted > 0
    && s.nextToOpen == s.first + 4 * s.numOpened && |s.streams| + s.deleted == s.numOpened < s.maxNumStreams + s.deleted
    && var before := Min(s.maxNumStreams + s.deleted - 1, MAX_STREAM_COUNT);
       && s.numOpened <= before && s.maxStream == Id(s.first, before)
       && (forall i, j :: 0 <= i < j < |s.limits| ==> s.limits[i] < s.limits[j])
       && (forall i :: 0 <= i < |s.limits| ==> s.limits[i] <= before)
  }

  /** Granting makes up for it. */
  lemma GrantCredits(s: State)
    requires Owing(s)
    ensures Credited(Grant(s))
  {
  }

  /** What holds before an accepted stream is deleted. */
  ghost predicate Deletable(s: State, id: int) {
    Contiguous(s.(streams := s.streams - {id})) && Credited(s) && id in s.streams && id < s.nextToAccept
  }

  lemma DeleteInv(s: State, id: int)
    requires Deletable(s, id)
    ensures Inv(Delete(s, id))
  {
    hide OfKind;
    assert |s.streams - {id}| == |s.streams| - 1;
    var s' := s.(streams := s.streams - {id}, deleted := s.deleted + 1);
    assert Owing(s');
    GrantCredits(s');
  }

  lemma DeleteStreamInv(s: State, id: int)
    requires Inv(s)
    ensures Inv(DeleteStream(s, id).0)
  {
    hide OfKind;
    if id in s.streams && id < s.nextToAccept {
      DeleteInv(s, id);
    }
  }

  // ---- What the invariant means. ----

  /** The peer never has more than the maximum number of streams, and what it was told it may open is never more than
      that number together with the streams deleted. */
  lemma WithinLimit(s: State)
    requires Inv(s)
    ensures |s.streams| <= s.maxNumStreams
    ensures s.maxStream <= Id(s.first, s.maxNumStreams + s.deleted)
  {
    hide OfKind;
  }

  ghost predicate Someone(s: State, c: Caller) {
    exists w :: 0 <= w < |s.callers| && s.callers[w] == c
  }

  /** A call of AcceptStream waits although there is a stream for it: no signal is coming, and no other call is looking.
      */
  ghost predicate Stranded(s: State) {
    s.nextToAccept in s.streams && s.closeErr == None && !s.token && Someone(s, Waiting) && !Someone(s, Looking)
  }

  /** At most one call of AcceptStream is under way. */
  ghost predicate OneCaller(s: State) {
    forall v, w :: 0 <= v < w < |s.callers| ==> s.callers[v] == Returned || s.callers[w] == Returned
  }

  predicate NobodyAccepts(s: State) {
    forall w :: 0 <= w < |s.callers| ==> s.callers[w] == Returned
  }
}

/** What a send stream sends when it is asked for a frame, and that it gets everything delivered in the end. */
module SendProgress {
  import opened Protocol
  import opened StreamFrames
  import opened SendLedger
  import opened SendSpec
  import opened SendRuns

  /** The room that a frame at `offset` needs for its header and one byte. */
  function RoomForByte(streamId: nat, offset: nat): nat
    requires streamId <= MAX_BYTE_COUNT && offset <= MAX_BYTE_COUNT
  {
    HeaderLen(streamId, offset) + 2
  }

  /** The stream may send data: it is not shut down, and if it is cancelled there is reliable data. */
  predicate MaySend(s: State) {
    !s.v.shutdown && (s.v.cancelled ==> s.v.reliable > 0)
  }

  /** A lost frame is sent again before anything else, from its first byte on: all of it with its FIN if it fits, or
      else as much as fits, but for one byte at most. The rest of it stays in front of the queue, and nothing else
      changes. A frame comes out if and only if there is room for all of it, or for the header and one byte. */
  lemma LostIsSentAgain(s: State, maxBytes: nat, window: nat)
    requires Inv(s) && MaySend(s) && s.v.queue != []
    requires s.v.writeOffset + window <= MAX_BYTE_COUNT && maxBytes <= MAX_PACKET_BUFFER_SIZE
    ensures QueueFits(s) && s.streamId <= MAX_BYTE_COUNT && s.v.queue[0].End() <= MAX_BYTE_COUNT
    ensures var (s', f) := PopStreamFrame(s, maxBytes, window);
            var head := s.v.queue[0];
            && (f.Some? <==> Length(s.streamId, head) <= maxBytes || RoomForByte(s.streamId, head.offset) <= maxBytes)
            && (f.None? ==> s' == s)
            && (f.Some? ==> SentAgain(s, maxBytes, s', f.value))
  {
    hide Inv, QueueFits;
    QueueAlwaysFits(s);
    HeadFits(s);
  }

  predicate SentAgain(s: State, maxBytes: nat, s': State, f: StreamFrame)
    requires s.v.queue != [] && s.streamId <= MAX_BYTE_COUNT && s.v.queue[0].End() <= MAX_BYTE_COUNT
  {
    var head := s.v.queue[0];
    && f.offset == head.offset && f.data <= head.data && Length(s.streamId, f) <= maxBytes
    && s' == s.(v := s.v.(queue := s'.v.queue, inFlight := s.v.inFlight + [f]), num := s.num + 1)
    && if Length(s.streamId, head) <= maxBytes then f == head && s'.v.queue == s.v.queue[1..]
       else
         && 0 < |f.data| < |head.data| && !f.fin && maxBytes <= Length(s.streamId, f) + 1
         && s'.v.queue == [StreamFrame(f.End(), head.data[|f.data|..], head.fin)] + s.v.queue[1..]
  }

  /** There is new data to send. */
  predicate HasNew(s: State) {
    (s.v.next.Some? || s.v.pending != []) && (s.v.cancelled ==> s.v.writeOffset < s.v.reliable)
  }

  /** New data is sent if nothing waits to be sent again, and there is room and window for one byte: the next bytes, as
      many as there are in the buffer (or in the hands of the writer), as the window, the packet and the reliable size
      allow. The FIN goes with the last byte. Nothing else changes. */
  lemma NewIsSent(s: State, maxBytes: nat, window: nat)
    requires Inv(s) && MaySend(s) && s.v.queue == [] && HasNew(s)
    requires s.v.writeOffset + window <= MAX_BYTE_COUNT && maxBytes <= MAX_PACKET_BUFFER_SIZE
    ensures QueueFits(s) && s.streamId <= MAX_BYTE_COUNT && s.v.writeOffset <= MAX_BYTE_COUNT
    ensures var (s', f) := PopStreamFrame(s, maxBytes, window);
            && (f.Some? <==> window > 0 && RoomForByte(s.streamId, s.v.writeOffset) <= maxBytes)
            && (f.None? ==> s' == s)
            && (f.Some? ==> f.value.End() <= MAX_BYTE_COUNT && SentNew(s, maxBytes, window, s', f.value))
  {
    hide Inv, QueueFits, PopNew, HeaderLen, SentNew;
    QueueAlwaysFits(s);
    PopFacts(s);
    var v, r := s.v, s.v.reliable;
    var maxData := Min(if v.cancelled then Min(window, r - v.writeOffset) else window,
                       MaxDataLen(s.streamId, v.writeOffset, maxBytes));
    if maxData > 0 {
      PopsNew(s, maxBytes, window, maxData);
    }
  }

  lemma PopsNew(s: State, maxBytes: nat, window: nat, maxData: nat)
    requires s.streamId <= MAX_BYTE_COUNT && s.v.writeOffset + window <= MAX_BYTE_COUNT
    requires maxBytes <= MAX_PACKET_BUFFER_SIZE && maxData > 0 && HasNew(s)
    requires s.v.next.Some? ==> s.v.next.value.data != []
    requires maxData == Min(if s.v.cancelled then Min(window, s.v.reliable - s.v.writeOffset) else window,
                            MaxDataLen(s.streamId, s.v.writeOffset, maxBytes))
    ensures var (s', f) := PopNew(s, maxData);
            f.Some? && f.value.End() <= MAX_BYTE_COUNT && SentNew(s, maxBytes, window, s', f.value)
  {
    hide NewView, NewFrame, HeaderLen, Unsent;
    NewSent(s.v, maxData);
  }

  /** The bytes that were written and not sent yet. */
  function Unsent(v: View): seq<byte> {
    Buffered(v.next) + v.pending
  }

  /** What is left in the buffer, or in the hands of the writer, is what follows the frame. */
  predicate Remains(v: View, v': View, f: StreamFrame) {
    if v.next.Some? then
      && v'.pending == v.pending && |f.data| <= |v.next.value.data|
      && var rest := v.next.value.data[|f.data|..];
         v'.next == if rest == [] then None else Some(StreamFrame(f.End(), rest, false))
    else
      v'.next == None && |f.data| <= |v.pending| && v'.pending == v.pending[|f.data|..]
  }

  predicate SentNew(s: State, maxBytes: nat, window: nat, s': State, f: StreamFrame)
    requires s.streamId <= MAX_BYTE_COUNT && f.End() <= MAX_BYTE_COUNT
  {
    var v, v' := s.v, s'.v;
    var source := if v.next.Some? then v.next.value.data else v.pending;
    && f.offset == v.writeOffset && f.data != [] && f.data <= source && |f.data| <= window
    && Length(s.streamId, f) <= maxBytes && (v.cancelled ==> f.End() <= v.reliable)
    && (|| |f.data| == |source| || |f.data| == window || (v.cancelled && f.End() == v.reliable)
        || maxBytes <= Length(s.streamId, f) + 1)
    && (f.fin <==> v.finishedWriting && !v.finSent && f.data == Unsent(v))
    && Unsent(v) == f.data + Unsent(v') && Remains(v, v', f)
    && v' == v.(next := v'.next, pending := v'.pending, writeOffset := f.End(), sent := v.sent + f.data,
                inFlight := v.inFlight + [f], finSent := v.finSent || f.fin)
    && s' == s.(v := v', num := s.num + 1)
  }

  lemma NewSent(v: View, maxData: nat)
    requires maxData > 0 && (v.next.Some? || v.pending != []) && (v.next.Some? ==> v.next.value.data != [])
    ensures var v', f := NewView(v, maxData), NewFrame(v, maxData);
            var source := if v.next.Some? then v.next.value.data else v.pending;
            && f.offset == v.writeOffset && f.data == source[..Min(maxData, |source|)] != []
            && (f.fin <==> v.finishedWriting && !v.finSent && f.data == Unsent(v))
            && Unsent(v) == f.data + Unsent(v') && Remains(v, v', f)
            && v' == v.(next := v'.next, pending := v'.pending, writeOffset := f.End(), sent := v.sent + f.data,
                        inFlight := v.inFlight + [f], finSent := v.finSent || f.fin)
  {
    var v', f := NewView(v, maxData), NewFrame(v, maxData);
    var source := if v.next.Some? then v.next.value.data else v.pending;
    assert source == f.data + source[|f.data|..];
  }

  /** Otherwise the FIN is sent if it is due, whatever the room; and if it is not, nothing is sent. */
  lemma FinIsSent(s: State, maxBytes: nat, window: nat)
    requires Inv(s) && !(MaySend(s) && (s.v.queue != [] || HasNew(s)))
    requires s.v.writeOffset + window <= MAX_BYTE_COUNT && maxBytes <= MAX_PACKET_BUFFER_SIZE
    ensures QueueFits(s) && s.streamId <= MAX_BYTE_COUNT && s.v.writeOffset <= MAX_BYTE_COUNT
    ensures var (s', f) := PopStreamFrame(s, maxBytes, window);
            var fin := StreamFrame(s.v.writeOffset, [], true);
            if MaySend(s) && !s.v.cancelled && s.v.finishedWriting && !s.v.finSent then
              && f == Some(fin)
              && s' == s.(v := s.v.(finSent := true, inFlight := s.v.inFlight + [fin]), num := s.num + 1)
            else s' == s && f == None
  {
    hide Inv, QueueFits;
    QueueAlwaysFits(s);
    if !s.v.shutdown {
      PopFacts(s);
    }
  }

  /** What comes out when a packet is filled, in all cases. */
  predicate Pops(s: State, maxBytes: nat, window: nat, s': State, f: Option<StreamFrame>)
    requires s.streamId <= MAX_BYTE_COUNT && s.v.writeOffset + window <= MAX_BYTE_COUNT && QueueFits(s)
  {
    var fin := StreamFrame(s.v.writeOffset, [], true);
    if MaySend(s) && s.v.queue != [] then
      HeadFits(s);
      var head := s.v.queue[0];
      if f.Some? then SentAgain(s, maxBytes, s', f.value)
      else s' == s && maxBytes < Length(s.streamId, head) && maxBytes < RoomForByte(s.streamId, head.offset)
    else if MaySend(s) && HasNew(s) then
      if f.Some? then f.value.End() <= MAX_BYTE_COUNT && SentNew(s, maxBytes, window, s', f.value)
      else s' == s && (window == 0 || maxBytes < RoomForByte(s.streamId, s.v.writeOffset))
    else if MaySend(s) && !s.v.cancelled && s.v.finishedWriting && !s.v.finSent then
      && f == Some(fin)
      && s' == s.(v := s.v.(finSent := true, inFlight := s.v.inFlight + [fin]), num := s.num + 1)
    else s' == s && f == None
  }

  lemma PopsExactly(s: State, maxBytes: nat, window: nat)
    requires Inv(s) && s.v.writeOffset + window <= MAX_BYTE_COUNT && maxBytes <= MAX_PACKET_BUFFER_SIZE
    ensures QueueFits(s) && s.streamId <= MAX_BYTE_COUNT && s.v.writeOffset <= MAX_BYTE_COUNT
    ensures var (s', f) := PopStreamFrame(s, maxBytes, window); Pops(s, maxBytes, window, s', f)
  {
    hide Inv, PopStreamFrame, QueueFits, HasNew, SentNew, SentAgain, Length, HeaderLen;
    QueueAlwaysFits(s);
    var (s', f) := PopStreamFrame(s, maxBytes, window);
    if MaySend(s) && s.v.queue != [] {
      LostIsSentAgain(s, maxBytes, window);
    } else if MaySend(s) && HasNew(s) {
      NewIsSent(s, maxBytes, window);
    } else {
      FinIsSent(s, maxBytes, window);
    }
    assert Pops(s, maxBytes, window, s', f);
  }

  // ---- Everything is delivered in the end. ----

  /** What waits to be sent again: the bytes, and one for each frame. */
  ghost function OwedAgain(queue: seq<StreamFrame>): nat {
    if queue == [] then 0 else OwedAgain(queue[1..]) + |queue[0].data| + 1
  }

  /** What is still to be sent: of a cancelled stream up to its reliable size, otherwise with the FIN. */
  ghost function Owed(s: State): nat {
    OwedAgain(s.v.queue) +
    if s.v.cancelled then if s.v.reliable > s.v.writeOffset then s.v.reliable - s.v.writeOffset else 0
    else |Unsent(s.v)| + if s.v.finSent then 0 else 1
  }

  /** The stream will not be given more to send: it is closed, or cancelled with reliable data. */
  predicate Paying(s: State) {
    !s.v.shutdown && (if s.v.cancelled then s.v.reliable > 0 else s.v.finishedWriting)
  }

  /** A packet is filled, with room and window for at least one byte of what comes next. */
  predicate Roomy(s: State, e: Event) {
    && e.PopEvent? && e.window > 0
    && var offset := if s.v.queue != [] then s.v.queue[0].offset else s.v.writeOffset;
       s.streamId <= MAX_BYTE_COUNT && offset <= MAX_BYTE_COUNT && RoomForByte(s.streamId, offset) <= e.maxBytes
  }

  /** No frame is lost, and what is owed is neither given up nor shut down. */
  predicate Quiet(s: State, e: Event) {
    !e.LostEvent? && !e.StopSendingEvent? && !e.ShutdownEvent? && (e.CancelEvent? ==> s.v.cancelled)
  }

  /** Every packet with room pays off a part of what is owed, and nothing adds to it. */
  lemma PaysOff(s: State, e: Event)
    requires Inv(s) && Paying(s) && Allowed(s, e) && NoPanic(s, e) && Quiet(s, e)
    ensures NotMore(s, Next(s, e))
    ensures Roomy(s, e) && Owed(s) > 0 ==> Owed(Next(s, e)) < Owed(s)
  {
    hide Inv, NotMore, Owed, Paying, RoomForByte, PopStreamFrame, WriteOnce, BeginWrite, Close, CancelWrite, OnAcked,
         OnResetAcked, OnResetLost, GetControlFrame, SetReliableBoundary;
    match e {
      case PopEvent(maxBytes, window) => PopPays(s, maxBytes, window);
      case WriteEvent(p, deadlineOver, deadlineOverNow) => WriteAddsNothing(s, p, deadlineOver, deadlineOverNow);
      case ResumeEvent(deadlineOver) => ResumeAddsNothing(s, deadlineOver);
      case CloseEvent => ReportsAddNothing(s, e);
      case CancelEvent(_) => ReportsAddNothing(s, e);
      case AckedEvent(k) => AckAddsNothing(s, k);
      case _ => OthersAddNothing(s, e);
    }
  }

  /** The stream owes no more than before, and is cancelled exactly if it was. */
  ghost predicate NotMore(s: State, s': State) {
    Paying(s') && Owed(s') <= Owed(s) && s'.v.cancelled == s.v.cancelled && s'.v.reliable >= s.v.reliable
  }

  lemma WriteAddsNothing(s: State, p: seq<byte>, deadlineOver: bool, deadlineOverNow: bool)
    requires Paying(s) && s.writing.None?
    ensures NotMore(s, BeginWrite(s, p, deadlineOver, deadlineOverNow).0)
  {
    hide Done, OwedAgain, Unsent;
  }

  lemma ResumeAddsNothing(s: State, deadlineOver: bool)
    requires Paying(s) && s.writing.Some? && |s.v.pending| <= |s.v.written|
    ensures NotMore(s, WriteOnce(s, deadlineOver).0)
  {
    hide NotMore, Paying, StopOrWait;
    if CanBuffer(s.v) && s.v.pending != [] {
      BufferAddsNothing(s);
    } else {
      StopAddsNothing(s, deadlineOver);
    }
  }

  lemma BufferAddsNothing(s: State)
    requires Paying(s)
    ensures NotMore(s, s.(v := s.v.(next := Buffer(s.v), pending := []), writing := None))
  {
    hide OwedAgain;
  }

  lemma StopAddsNothing(s: State, deadlineOver: bool)
    requires Paying(s) && s.writing.Some? && |s.v.pending| <= |s.v.written|
    ensures NotMore(s, StopOrWait(s, deadlineOver).0)
  {
    hide Done, OwedAgain;
  }

  lemma ReportsAddNothing(s: State, e: Event)
    requires Paying(s) && Allowed(s, e) && (e.CloseEvent? || (e.CancelEvent? && s.v.cancelled)) && NoPanic(s, e)
    ensures NotMore(s, Next(s, e))
  {
    hide Done, OwedAgain, Unsent;
  }

  lemma AckAddsNothing(s: State, k: nat)
    requires Paying(s) && k < |s.v.inFlight|
    ensures NotMore(s, OnAcked(s, k))
  {
    hide Done, OwedAgain, Without;
  }

  lemma OthersAddNothing(s: State, e: Event)
    requires Inv(s) && Paying(s) && Allowed(s, e) && NoPanic(s, e)
    requires e.BoundaryEvent? || e.ControlEvent? || e.ResetAckedEvent? || e.ResetLostEvent?
    ensures NotMore(s, Next(s, e))
  {
    hide Inv, NotMore, Paying, SetReliableBoundary, GetControlFrame, OnResetAcked, OnResetLost;
    match e {
      case BoundaryEvent => BoundaryAddsNothing(s);
      case ControlEvent => ControlAddsNothing(s);
      case _ => ResetOutcomeAddsNothing(s, e);
    }
  }

  lemma BoundaryAddsNothing(s: State)
    requires Inv(s) && Paying(s) && Allowed(s, BoundaryEvent)
    ensures NotMore(s, SetReliableBoundary(s))
  {
    hide OwedAgain, Delivering, Accounted;
  }

  lemma ControlAddsNothing(s: State)
    requires Paying(s)
    ensures NotMore(s, GetControlFrame(s).0)
  {
    hide OwedAgain, Unsent;
  }

  lemma ResetOutcomeAddsNothing(s: State, e: Event)
    requires Paying(s) && Allowed(s, e) && NoPanic(s, e) && (e.ResetAckedEvent? || e.ResetLostEvent?)
    ensures NotMore(s, Next(s, e))
  {
    hide Done, OwedAgain, WithoutReset, Unsent;
  }

  lemma PopPays(s: State, maxBytes: nat, window: nat)
    requires Inv(s) && Paying(s) && QueueFits(s) && s.streamId <= MAX_BYTE_COUNT
    requires s.v.writeOffset + window <= MAX_BYTE_COUNT && maxBytes <= MAX_PACKET_BUFFER_SIZE
    ensures var s' := PopStreamFrame(s, maxBytes, window).0;
            && NotMore(s, s')
            && (Roomy(s, PopEvent(maxBytes, window)) && Owed(s) > 0 ==> Owed(s') < Owed(s))
  {
    hide Inv, PopStreamFrame, QueueFits, Owed, NotMore, RoomForByte, HasNew, SentNew, SentAgain, Length;
    var s' := PopStreamFrame(s, maxBytes, window).0;
    if s.v.queue != [] {
      LostIsSentAgain(s, maxBytes, window);
      AgainPays(s, maxBytes, s', PopStreamFrame(s, maxBytes, window).1);
    } else if HasNew(s) {
      NewIsSent(s, maxBytes, window);
      NewPays(s, maxBytes, window, s', PopStreamFrame(s, maxBytes, window).1);
    } else {
      FinIsSent(s, maxBytes, window);
      PopFacts(s);
      FinPays(s, s');
    }
  }

  lemma AgainPays(s: State, maxBytes: nat, s': State, f: Option<StreamFrame>)
    requires Paying(s) && s.v.queue != [] && s.streamId <= MAX_BYTE_COUNT && s.v.queue[0].End() <= MAX_BYTE_COUNT
    requires if f.Some? then SentAgain(s, maxBytes, s', f.value) else s' == s
    ensures NotMore(s, s') && (f.Some? ==> Owed(s') < Owed(s))
  {
    hide Length;
  }

  lemma NewPays(s: State, maxBytes: nat, window: nat, s': State, f: Option<StreamFrame>)
    requires Paying(s) && s.v.queue == [] && s.streamId <= MAX_BYTE_COUNT && HasNew(s)
    requires if f.Some? then f.value.End() <= MAX_BYTE_COUNT && SentNew(s, maxBytes, window, s', f.value) else s' == s
    ensures NotMore(s, s') && (f.Some? ==> Owed(s') < Owed(s))
  {
    hide Length, Unsent;
  }

  lemma FinPays(s: State, s': State)
    requires Paying(s) && s.v.queue == [] && !HasNew(s)
    requires s.v.cancelled && s.v.reliable > s.v.writeOffset ==> s.v.next.Some?
    requires var fin := StreamFrame(s.v.writeOffset, [], true);
             if !s.v.cancelled && s.v.finishedWriting && !s.v.finSent then
               s' == s.(v := s.v.(finSent := true, inFlight := s.v.inFlight + [fin]), num := s.num + 1)
             else s' == s
    ensures NotMore(s, s') && (Owed(s) > 0 ==> Owed(s') < Owed(s))
  {
  }

  /** How many of the first `n` events are packets with room. */
  ghost function RoomyPops(states: seq<State>, es: seq<Event>, n: nat): nat
    requires n <= |es| && n <= |states|
  {
    if n == 0 then 0 else RoomyPops(states, es, n - 1) + if Roomy(states[n - 1], es[n - 1]) then 1 else 0
  }

  lemma {:induction false} StepsPayOff(states: seq<State>, es: seq<Event>, n: nat)
    requires Steps(states, es) && n <= |es| && Inv(states[0]) && Paying(states[0])
    requires forall i :: 0 <= i < |es| ==> Quiet(states[i], es[i])
    ensures Inv(states[n]) && Paying(states[n]) && states[n].v.cancelled == states[0].v.cancelled
    ensures states[n].v.reliable >= states[0].v.reliable
    ensures Owed(states[n]) == 0 || Owed(states[n]) + RoomyPops(states, es, n) <= Owed(states[0])
  {
    hide Inv, Paying, Owed, Next, NoPanic, Allowed, Roomy, Quiet;
    if n > 0 {
      StepsPayOff(states, es, n - 1);
      StepInv(states[n - 1], es[n - 1]);
      PaysOff(states[n - 1], es[n - 1]);
    }
  }

  /** A closed stream, after the last loss: once there was room in as many packets as there are bytes and frames to
      send, and what was sent is acknowledged, the stream was reported as completed, and all that was written and the
      FIN were acknowledged. */
  lemma ClosedCompletes(states: seq<State>, es: seq<Event>)
    requires Steps(states, es) && Inv(states[0])
    requires !states[0].v.cancelled && !states[0].v.shutdown && states[0].v.finishedWriting
    requires forall i :: 0 <= i < |es| ==> Quiet(states[i], es[i])
    requires RoomyPops(states, es, |es|) >= Owed(states[0]) && states[|es|].v.inFlight == []
    ensures var s := states[|es|];
            && s.completed
            && Delivering(s.v.acked, |s.v.written|, s.v.written) && FinOnce(s.v.acked, |s.v.written|)
  {
    hide Inv, Next, NoPanic, Allowed, Delivering, FinOnce;
    StepsPayOff(states, es, |es|);
    NothingOwed(states[|es|]);
  }

  /** A cancelled stream with reliable data, likewise: all reliable data was acknowledged; and if the reset was, too,
      and the application knows, then the stream was reported as completed, unless it is stuck. */
  lemma ReliableCompletes(states: seq<State>, es: seq<Event>)
    requires Steps(states, es) && Inv(states[0])
    requires states[0].v.cancelled && !states[0].v.shutdown && states[0].v.reliable > 0
    requires forall i :: 0 <= i < |es| ==> Quiet(states[i], es[i])
    requires RoomyPops(states, es, |es|) >= Owed(states[0]) && states[|es|].v.inFlight == []
    ensures var s := states[|es|];
            && states[0].v.reliable <= s.v.reliable <= |s.v.sent| && Delivering(s.v.acked, s.v.reliable, s.v.sent)
            && ((s.flagged || s.v.finishedWriting) && s.queued == None && !ResetInFlight(s.resets, s.v.reliable) ==>
                  (s.completed <==> !Stuck(s)))
  {
    hide Inv, Next, NoPanic, Allowed, Delivering, Stuck, ResetInFlight;
    StepsPayOff(states, es, |es|);
    var s := states[|es|];
    ReliableAcknowledged(s);
    if (s.flagged || s.v.finishedWriting) && s.queued == None && !ResetInFlight(s.resets, s.v.reliable) {
      SettledCompletes(s);
    }
  }

  lemma ReliableAcknowledged(s: State)
    requires Inv(s) && Paying(s) && s.v.cancelled && Owed(s) == 0 && s.v.inFlight == []
    ensures s.v.queue == [] && s.v.reliable <= s.v.writeOffset
    ensures s.v.reliable <= |s.v.sent| && Delivering(s.v.acked, s.v.reliable, s.v.sent)
  {
    hide Delivering;
    assert Frames(s.v) == s.v.acked;
  }

  lemma NothingOwed(s: State)
    requires Inv(s) && Paying(s) && !s.v.cancelled && Owed(s) == 0 && s.v.inFlight == []
    ensures s.completed && Delivering(s.v.acked, |s.v.written|, s.v.written) && FinOnce(s.v.acked, |s.v.written|)
  {
    hide Delivering, FinOnce, Frames;
    assert NextOk(s.v);
    NothingOutstanding(s.v);
  }
}

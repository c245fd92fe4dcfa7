/** Whole runs of a send stream: every interleaving of writers, packets, acknowledgements, losses and cancellations. */
module SendRuns {
  import opened Protocol
  import opened StreamFrames
  import opened SendLedger
  import opened SendSpec

  datatype Event =
    | WriteEvent(p: seq<byte>, deadlineOver: bool, deadlineOverNow: bool)
    | ResumeEvent(deadlineOver: bool)
    | CloseEvent
    | BoundaryEvent
    | ShutdownEvent
    | CancelEvent(errorCode: nat)
    | StopSendingEvent(errorCode: nat)
    | ControlEvent
    | PopEvent(maxBytes: nat, window: nat)
    | AckedEvent(k: nat)
    | LostEvent(k: nat)
    | ResetAckedEvent(k: nat)
    | ResetLostEvent(k: nat)

  /** What the callers guarantee: one Write at a time, an outcome only for a frame in flight, no reliable boundary after
      a cancellation, packets that fit a buffer and a send window within the offset range. */
  predicate Allowed(s: State, e: Event) {
    match e
    case WriteEvent(_, _, _) => s.writing.None?
    case ResumeEvent(_) => s.writing.Some?
    case BoundaryEvent => !s.v.cancelled
    case PopEvent(maxBytes, window) => maxBytes <= MAX_PACKET_BUFFER_SIZE && s.v.writeOffset + window <= MAX_BYTE_COUNT
    case AckedEvent(k) => k < |s.v.inFlight|
    case LostEvent(k) => k < |s.v.inFlight|
    case ResetAckedEvent(k) => k < |s.resets|
    case ResetLostEvent(k) => k < |s.resets|
    case _ => true
  }

  /** The step neither makes the number of outstanding frames negative nor slices a frame out of its bounds. */
  ghost predicate NoPanic(s: State, e: Event)
    requires Allowed(s, e)
  {
    match e
    case ResumeEvent(_) => |s.v.pending| <= |s.v.written|
    case PopEvent(_, _) => s.streamId <= MAX_BYTE_COUNT && QueueFits(s)
    case AckedEvent(k) => (s.v.cancelled && s.v.reliable == 0) || s.num >= 1
    case LostEvent(k) => (s.v.cancelled && s.v.reliable == 0) || s.num >= 1
    case ResetAckedEvent(k) => s.resets[k].reliableSize != s.v.reliable || s.num >= 1
    case ResetLostEvent(k) => s.resets[k].reliableSize != s.v.reliable || s.num >= 1
    case _ => true
  }

  ghost function Next(s: State, e: Event): State
    requires Allowed(s, e) && NoPanic(s, e)
  {
    match e
    case WriteEvent(p, deadlineOver, deadlineOverNow) => BeginWrite(s, p, deadlineOver, deadlineOverNow).0
    case ResumeEvent(deadlineOver) => WriteOnce(s, deadlineOver).0
    case CloseEvent => Close(s)
    case BoundaryEvent => SetReliableBoundary(s)
    case ShutdownEvent => CloseForShutdown(s)
    case CancelEvent(errorCode) => CancelWrite(s, errorCode)
    case StopSendingEvent(errorCode) => HandleStopSending(s, errorCode)
    case ControlEvent => GetControlFrame(s).0
    case PopEvent(maxBytes, window) => PopStreamFrame(s, maxBytes, window).0
    case AckedEvent(k) => OnAcked(s, k)
    case LostEvent(k) => OnLost(s, k)
    case ResetAckedEvent(k) => OnResetAcked(s, k)
    case ResetLostEvent(k) => OnResetLost(s, k)
  }

  function Fresh(streamId: nat, supportsResetStreamAt: bool): State {
    State(streamId, supportsResetStreamAt,
          View(false, false, 0, false, false, 0, None, [], [], [], [], multiset{}, []),
          0, [], None, 0, false, false, 0, None)
  }

  lemma FreshInv(streamId: nat, supportsResetStreamAt: bool)
    requires streamId <= MAX_BYTE_COUNT
    ensures Inv(Fresh(streamId, supportsResetStreamAt))
  {
    var s := Fresh(streamId, supportsResetStreamAt);
    assert Frames(s.v) == multiset{};
    assert s.v.written == s.v.sent + Buffered(s.v.next) + s.v.pending;
  }

  lemma StepInv(s: State, e: Event)
    requires Inv(s) && Allowed(s, e)
    ensures NoPanic(s, e) && Inv(Next(s, e))
  {
    QueueAlwaysFits(s);
    NoPanicInv(s, e);
    hide Inv, Report, BeginWrite, WriteOnce, Close, SetReliableBoundary, CloseForShutdown, CancelWrite,
         HandleStopSending, GetControlFrame, PopStreamFrame, OnAcked, OnLost, OnResetAcked, OnResetLost, Conserving,
         QueueFits;
    match e
    case WriteEvent(p, deadlineOver, deadlineOverNow) => BeginWriteInv(s, p, deadlineOver, deadlineOverNow);
    case ResumeEvent(deadlineOver) => WriteOnceInv(s, deadlineOver);
    case CloseEvent => CloseInv(s);
    case BoundaryEvent => SetReliableBoundaryInv(s);
    case ShutdownEvent => CloseForShutdownInv(s);
    case CancelEvent(errorCode) => CancelWriteInv(s, errorCode);
    case StopSendingEvent(errorCode) => HandleStopSendingInv(s, errorCode);
    case ControlEvent => GetControlFrameInv(s);
    case PopEvent(maxBytes, window) => PopStreamFrameInv(s, maxBytes, window);
    case AckedEvent(k) => OnAckedInv(s, k);
    case LostEvent(k) => OnLostInv(s, k);
    case ResetAckedEvent(k) => OnResetAckedInv(s, k);
    case ResetLostEvent(k) => OnResetLostInv(s, k);
  }

  lemma NoPanicInv(s: State, e: Event)
    requires Inv(s) && Allowed(s, e)
    ensures NoPanic(s, e)
  {
    QueueAlwaysFits(s);
    hide Conserving;
    match e {
      case ResetAckedEvent(k) =>
        assert s.resets[k].reliableSize == s.v.reliable ==> ResetInFlight(s.resets, s.v.reliable);
      case ResetLostEvent(k) =>
        assert s.resets[k].reliableSize == s.v.reliable ==> ResetInFlight(s.resets, s.v.reliable);
      case _ =>
    }
  }

  /** The states that a stream goes through when the events `es` happen, as long as no step panics. */
  ghost predicate IsRun(states: seq<State>, es: seq<Event>) {
    && |states| == |es| + 1
    && (exists id: nat, supports: bool :: id <= MAX_BYTE_COUNT && states[0] == Fresh(id, supports))
    && (forall i :: 0 <= i < |es| ==>
          Allowed(states[i], es[i]) && (NoPanic(states[i], es[i]) ==> states[i + 1] == Next(states[i], es[i])))
  }

  /** Every run keeps the invariant and never panics. */
  lemma {:induction false} RunInv(states: seq<State>, es: seq<Event>, i: nat)
    requires IsRun(states, es) && i < |states|
    ensures Inv(states[i])
    ensures i < |es| ==> NoPanic(states[i], es[i])
  {
    if i == 0 {
      var id: nat, supports: bool :| id <= MAX_BYTE_COUNT && states[0] == Fresh(id, supports);
      FreshInv(id, supports);
    } else {
      RunInv(states, es, i - 1);
      StepInv(states[i - 1], es[i - 1]);
    }
    if i < |es| {
      StepInv(states[i], es[i]);
    }
  }

  /** As long as a stream is neither cancelled nor shut down, nothing that was written is lost or duplicated: it was
      sent, is buffered or still in the writer's hands; and every byte sent is in exactly one frame that is
      acknowledged, in flight or waiting to be sent again. The FIN is treated alike. */
  lemma RunConserves(states: seq<State>, es: seq<Event>, i: nat)
    requires IsRun(states, es) && i < |states| && !states[i].v.cancelled && !states[i].v.shutdown
    ensures var v := states[i].v;
            && v.written == v.sent + Buffered(v.next) + v.pending && |v.sent| == v.writeOffset
            && Delivering(v.acked + multiset(v.inFlight) + multiset(v.queue), v.writeOffset, v.sent)
            && (v.finSent ==>
                  v.sent == v.written && FinOnce(v.acked + multiset(v.inFlight) + multiset(v.queue), v.writeOffset))
            && states[i].num == |v.inFlight|
  {
    RunInv(states, es, i);
    var v := states[i].v;
    assert v.sent + [] + [] == v.sent;
  }

  /** A stream is reported as completed at most once. Without a cancellation or a shutdown it is reported exactly when
      it has sent the FIN and nothing is outstanding, and then every byte written and the FIN were acknowledged. */
  lemma RunCompletes(states: seq<State>, es: seq<Event>, i: nat)
    requires IsRun(states, es) && i < |states|
    ensures states[i].completions <= 1
    ensures var s, v := states[i], states[i].v;
            !v.cancelled && !v.shutdown ==>
              && (s.completions == 1 <==> v.finSent && v.inFlight == [] && v.queue == [])
              && (s.completions == 1 ==> Delivering(v.acked, |v.written|, v.written) && FinOnce(v.acked, |v.written|))
  {
    RunInv(states, es, i);
    var s, v := states[i], states[i].v;
    if !v.cancelled && !v.shutdown && v.finSent && v.inFlight == [] && v.queue == [] {
      NothingOutstanding(v);
    }
  }

  /** When a cancelled stream is reported, every byte below its reliable size was acknowledged, and so was the reset. */
  lemma CancelledCompletes(s: State)
    requires Inv(s) && s.v.cancelled && !s.v.shutdown && Done(s)
    ensures s.v.reliable > 0 ==> s.v.reliable <= |s.v.sent| && Delivering(s.v.acked, s.v.reliable, s.v.sent)
    ensures s.queued == None && !ResetInFlight(s.resets, s.v.reliable)
  {
    if s.v.reliable > 0 {
      assert s.v.next == None by { assert NextOk(s.v); }
      ReliableDelivered(s.v);
    }
  }

  /** New data leaves the stream at the write offset, in order; the write offset moves with it. */
  lemma PopsInOrder(s: State, maxBytes: nat, window: nat)
    requires Inv(s) && s.v.writeOffset + window <= MAX_BYTE_COUNT && maxBytes <= MAX_PACKET_BUFFER_SIZE && QueueFits(s)
    requires s.v.queue == []
    ensures s.streamId <= MAX_BYTE_COUNT
    ensures var (s', f) := PopStreamFrame(s, maxBytes, window);
            match f
            case None => s' == s
            case Some(f) =>
              && f.offset == s.v.writeOffset && s'.v.writeOffset == f.End() && |f.data| <= window
              && s'.v.sent == s.v.sent + f.data && s'.v.inFlight == s.v.inFlight + [f]
              && (f.fin ==> s'.v.next == None && s'.v.pending == [] && s'.v.finishedWriting)
              && (f.data != [] || f.fin)
  {
    hide Conserving, Inv, QueueFits, Length, MaxDataLen, PopRetransmission, PopNew;
    QueueAlwaysFits(s);
    if !s.v.shutdown {
      PopFacts(s);
    }
    var v, r := s.v, s.v.reliable;
    if !v.shutdown && !(v.cancelled && (r == 0 || v.writeOffset >= r)) && (v.pending != [] || v.next.Some?) {
      var maxData := Min(if v.cancelled then Min(window, r - v.writeOffset) else window,
                         MaxDataLen(s.streamId, v.writeOffset, maxBytes));
      if maxData > 0 {
        PopNewInOrder(s, maxData);
      }
    }
  }

  lemma PopNewInOrder(s: State, maxData: nat)
    requires maxData > 0 && (s.v.next.Some? || s.v.pending != [])
    requires s.v.next.Some? ==> s.v.next.value.data != []
    ensures var (s', f) := PopNew(s, maxData);
            && f.Some? && f.value.offset == s.v.writeOffset && s'.v.writeOffset == f.value.End()
            && 0 < |f.value.data| <= maxData
            && s'.v.sent == s.v.sent + f.value.data && s'.v.inFlight == s.v.inFlight + [f.value]
            && (f.value.fin ==> s'.v.next == None && s'.v.pending == [] && s'.v.finishedWriting)
  {
  }

  // ---- When a cancelled stream completes. ----

  /** Data is buffered that the cancellation does not allow to be sent. */
  predicate Excess(v: View) {
    Buffered(v.next) != [] && v.next.value.End() > v.reliable
  }

  /** Cancelled and not reported, with such data in the buffer. */
  predicate Stuck(s: State) {
    s.v.cancelled && !s.v.shutdown && !s.completed && Excess(s.v)
  }

  /** The events that change neither what is buffered nor the cancellation. */
  predicate Plain(e: Event) {
    e.CloseEvent? || e.ControlEvent? || e.AckedEvent? || e.LostEvent? || e.ResetAckedEvent? || e.ResetLostEvent?
  }

  predicate Alike(s: State, s': State) {
    && s'.v.next == s.v.next && s'.v.reliable == s.v.reliable && s'.v.cancelled == s.v.cancelled
    && s'.v.shutdown == s.v.shutdown
    && s'.v.pending == s.v.pending && s'.writing == s.writing
  }

  lemma PlainKeeps(s: State, e: Event)
    requires Allowed(s, e) && NoPanic(s, e) && Plain(e)
    ensures Alike(s, Next(s, e))
  {
    hide Close, OnAcked, OnLost, OnResetAcked, OnResetLost, Alike;
    match e {
      case AckedEvent(k) => AckedKeeps(s, k);
      case LostEvent(k) => LostKeeps(s, k);
      case ResetAckedEvent(k) => ResetKeeps(s, k);
      case ResetLostEvent(k) => ResetKeeps(s, k);
      case CloseEvent => CloseKeeps(s);
      case _ => ControlKeeps(s);
    }
  }

  lemma CloseKeeps(s: State)
    ensures Alike(s, Close(s))
  {
    hide Done;
  }

  lemma ControlKeeps(s: State)
    ensures Alike(s, GetControlFrame(s).0)
  {
  }

  lemma AckedKeeps(s: State, k: nat)
    requires k < |s.v.inFlight|
    ensures Alike(s, OnAcked(s, k))
  {
    hide Done, Without;
  }

  lemma LostKeeps(s: State, k: nat)
    requires k < |s.v.inFlight|
    ensures Alike(s, OnLost(s, k))
  {
    hide Done, Lost;
    LostKeepsNext(s.v, k);
  }

  lemma ResetKeeps(s: State, k: nat)
    requires k < |s.resets|
    ensures Alike(s, OnResetAcked(s, k)) && Alike(s, OnResetLost(s, k))
  {
    hide Done, WithoutReset;
  }

  /** The only step by which a cancelled stream gets such data: a Write that was blocked continues, and its data fits
      into the buffer. */
  lemma ExcessExactly(s: State, e: Event)
    requires Inv(s) && Allowed(s, e) && NoPanic(s, e) && !Next(s, e).v.shutdown && Next(s, e).v.cancelled
    requires s.v.cancelled ==> !Excess(s.v)
    ensures Excess(Next(s, e).v) <==> s.v.cancelled && e.ResumeEvent? && s.v.pending != [] && CanBuffer(s.v)
  {
    hide Inv, Done, PopStreamFrame, WriteOnce, QueueFits, CancelWrite, HandleStopSending, Close, OnAcked, OnLost,
         OnResetAcked, OnResetLost, GetControlFrame, Excess, CanBuffer;
    if Plain(e) {
      PlainKeeps(s, e);
      SameExcess(s.v, Next(s, e).v);
    } else {
      match e {
        case WriteEvent(p, _, _) =>
          if !s.v.cancelled {
            WriteFlags(s, e);
          }
        case CancelEvent(errorCode) =>
          CancelExcess(s, errorCode);
        case StopSendingEvent(errorCode) =>
          CancelExcess(s, errorCode);
        case ResumeEvent(deadlineOver) =>
          ResumeExcess(s, deadlineOver);
        case PopEvent(maxBytes, window) =>
          PopKeepsFlags(s, maxBytes, window);
          PopKeepsEnd(s, maxBytes, window);
        case _ =>
      }
    }
  }

  lemma WriteFlags(s: State, e: Event)
    requires e.WriteEvent? && Allowed(s, e)
    ensures Next(s, e).v.cancelled == s.v.cancelled
  {
    hide Done;
  }

  /** What cancelling leaves in the buffer is reliable. */
  lemma CancelExcess(s: State, errorCode: nat)
    ensures Excess(CancelWrite(s, errorCode).v) ==> Excess(s.v) && (s.v.shutdown || s.v.cancelled)
    ensures Excess(HandleStopSending(s, errorCode).v) ==> Excess(s.v) && (s.v.shutdown || s.v.cancelled)
    ensures CancelWrite(s, errorCode).v.shutdown == HandleStopSending(s, errorCode).v.shutdown == s.v.shutdown
  {
    hide Done, AllBelow;
  }

  lemma ResumeExcess(s: State, deadlineOver: bool)
    requires Inv(s) && s.writing.Some? && |s.v.pending| <= |s.v.written|
    ensures var v' := WriteOnce(s, deadlineOver).0.v;
            && v'.cancelled == s.v.cancelled && v'.shutdown == s.v.shutdown && v'.reliable == s.v.reliable
            && (s.v.cancelled && !s.v.shutdown ==>
                  (Excess(v') <==> Excess(s.v) || (s.v.pending != [] && CanBuffer(s.v))))
  {
    hide Inv, Done, Excess, Buffer;
    if s.v.cancelled && !s.v.shutdown && s.v.pending != [] {
      BufferExcess(s);
    }
    if !(CanBuffer(s.v) && s.v.pending != []) {
      StopKeepsNext(s, deadlineOver);
      SameExcess(s.v, WriteOnce(s, deadlineOver).0.v);
    }
  }

  lemma BufferExcess(s: State)
    requires Inv(s) && s.v.cancelled && !s.v.shutdown && s.v.pending != []
    ensures Excess(s.v.(next := Buffer(s.v), pending := []))
  {
    hide Accounted, Reporting, Reported, Delivering, Frames, Done;
  }

  lemma StopKeepsNext(s: State, deadlineOver: bool)
    requires s.writing.Some? && |s.v.pending| <= |s.v.written|
    ensures var v' := StopOrWait(s, deadlineOver).0.v;
            && v'.cancelled == s.v.cancelled && v'.shutdown == s.v.shutdown && v'.reliable == s.v.reliable
            && v'.next == s.v.next
            && (v'.pending == s.v.pending || v'.pending == [])
  {
    hide Done;
  }

  lemma SameExcess(v: View, v': View)
    requires v'.next == v.next && v'.reliable == v.reliable
    ensures Excess(v') <==> Excess(v)
  {
  }

  /** Sending takes from the front of what is buffered, and in a cancelled stream only what is reliable. */
  lemma PopKeepsEnd(s: State, maxBytes: nat, window: nat)
    requires Inv(s) && s.v.cancelled && !s.v.shutdown && Allowed(s, PopEvent(maxBytes, window))
    requires NoPanic(s, PopEvent(maxBytes, window))
    ensures var v, v' := s.v, PopStreamFrame(s, maxBytes, window).0.v;
            && v'.pending == v.pending
            && (Excess(v') <==> Excess(v))
  {
    hide Inv, MaxDataLen, QueueFits, NewView, PopRetransmission, Excess;
    PopFacts(s);
    var v, r := s.v, s.v.reliable;
    if r != 0 && v.queue != [] {
      HeadFits(s);
      RetransmissionFlags(s, maxBytes);
      SameExcess(v, PopRetransmission(s, maxBytes).0.v);
    } else if r != 0 && v.queue == [] && v.writeOffset < r {
      var maxData := Min(Min(window, r - v.writeOffset), MaxDataLen(s.streamId, v.writeOffset, maxBytes));
      if maxData > 0 {
        NextStarts(s);
        NewKeepsEnd(v, maxData);
      }
    }
  }

  lemma NextStarts(s: State)
    requires Inv(s) && s.v.next.Some?
    ensures s.v.next.value.offset == s.v.writeOffset
  {
  }

  lemma NewKeepsEnd(v: View, maxData: nat)
    requires v.next.Some? && v.next.value.offset == v.writeOffset && maxData > 0
    requires v.writeOffset + maxData <= v.reliable
    ensures var v' := NewView(v, maxData); v'.pending == v.pending && (Excess(v') <==> Excess(v))
  {
  }

  /** It is never sent, and the stream never completes, unless STOP_SENDING arrives and there was reliable data to give
      up. */
  lemma StuckForever(s: State, e: Event)
    requires Inv(s) && Allowed(s, e) && NoPanic(s, e) && Stuck(s)
    ensures Next(s, e).v.shutdown || (Stuck(Next(s, e)) <==> !(e.StopSendingEvent? && s.v.reliable > 0))
  {
    hide Conserving, Inv, Lost, PopStreamFrame, QueueFits;
    match e {
      case ResumeEvent(deadlineOver) =>
        hide Done;
        StuckWriter(s, deadlineOver);
      case PopEvent(maxBytes, window) =>
        hide Done;
        PopKeepsEnd(s, maxBytes, window);
        PopKeepsFlags(s, maxBytes, window);
      case LostEvent(k) =>
        LostKeepsNext(s.v, k);
      case _ =>
    }
  }

  lemma LostKeepsNext(v: View, k: nat)
    requires k < |v.inFlight|
    ensures Lost(v, k).next == v.next && Lost(v, k).reliable == v.reliable && Lost(v, k).cancelled == v.cancelled
    ensures Lost(v, k).shutdown == v.shutdown && Lost(v, k).pending == v.pending
    ensures Lost(v, k).writeOffset == v.writeOffset
  {
  }

  lemma PopKeepsFlags(s: State, maxBytes: nat, window: nat)
    requires Allowed(s, PopEvent(maxBytes, window)) && NoPanic(s, PopEvent(maxBytes, window))
    ensures var s' := PopStreamFrame(s, maxBytes, window).0;
            && s'.completed == s.completed && s'.writing == s.writing
            && s'.v.cancelled == s.v.cancelled && s'.v.shutdown == s.v.shutdown && s'.v.reliable == s.v.reliable
  {
    hide MaxDataLen, QueueFits, NewView, PopRetransmission;
    var v, r := s.v, s.v.reliable;
    if v.queue != [] {
      HeadFits(s);
      RetransmissionFlags(s, maxBytes);
    } else if v.pending != [] || v.next.Some? {
      NewFlags(v, Min(if v.cancelled && r >= v.writeOffset then Min(window, r - v.writeOffset) else window,
                      MaxDataLen(s.streamId, v.writeOffset, maxBytes)));
    }
  }

  lemma RetransmissionFlags(s: State, maxBytes: nat)
    requires s.streamId <= MAX_BYTE_COUNT && maxBytes <= MAX_PACKET_BUFFER_SIZE
    requires s.v.queue != [] && s.v.queue[0].End() <= MAX_BYTE_COUNT && |s.v.queue[0].data| <= MAX_PACKET_BUFFER_SIZE
    ensures var s' := PopRetransmission(s, maxBytes).0;
            && s'.completed == s.completed && s'.writing == s.writing && s'.v.next == s.v.next
            && s'.v.pending == s.v.pending
            && s'.v.cancelled == s.v.cancelled && s'.v.shutdown == s.v.shutdown && s'.v.reliable == s.v.reliable
            && s'.v.writeOffset == s.v.writeOffset
  {
    hide MaxDataLen, Length, RetransmittedPart, Prefix;
    var v, f := s.v, s.v.queue[0];
    if maxBytes < Length(s.streamId, f) {
      SplitLeavesRest(s.streamId, f, maxBytes);
      PartFlags(v, MaxDataLen(s.streamId, f.offset, maxBytes));
    }
  }

  lemma PartFlags(v: View, n: nat)
    requires v.queue != [] && n <= |v.queue[0].data|
    ensures var v' := RetransmittedPart(v, n);
            && v'.next == v.next && v'.pending == v.pending && v'.cancelled == v.cancelled && v'.shutdown == v.shutdown
            && v'.reliable == v.reliable && v'.writeOffset == v.writeOffset
  {
  }

  lemma NewFlags(v: View, maxData: nat)
    ensures var v' := NewView(v, maxData);
            v'.cancelled == v.cancelled && v'.shutdown == v.shutdown && v'.reliable == v.reliable
  {
  }

  lemma StuckWriter(s: State, deadlineOver: bool)
    requires Stuck(s) && s.writing.Some? && |s.v.pending| <= |s.v.written|
    ensures Stuck(WriteOnce(s, deadlineOver).0)
  {
  }

  /** A run that continues from any state. */
  ghost predicate Steps(states: seq<State>, es: seq<Event>) {
    && |states| == |es| + 1
    && forall i :: 0 <= i < |es| ==>
         Allowed(states[i], es[i]) && NoPanic(states[i], es[i]) && states[i + 1] == Next(states[i], es[i])
  }

  ghost predicate CanGetStuck(s: State) {
    exists states: seq<State>, es: seq<Event> :: Steps(states, es) && states[0] == s && Stuck(states[|es|])
  }

  /** A Write is blocked with data that would fit into an empty buffer. */
  predicate BlockedWrite(s: State) {
    s.writing.Some? && 0 < |s.v.pending| <= MAX_PACKET_BUFFER_SIZE
  }

  predicate IsCancel(e: Event) {
    e.CancelEvent? || e.StopSendingEvent?
  }

  /** Nothing can be added to the buffer any more. */
  predicate Tame(s: State) {
    s.v.shutdown || (s.v.cancelled && !Excess(s.v) && !BlockedWrite(s))
  }

  lemma TameForever(s: State, e: Event)
    requires Inv(s) && Allowed(s, e) && NoPanic(s, e) && Tame(s)
    ensures Tame(Next(s, e))
  {
    hide Inv, Done, Lost, PopStreamFrame, WriteOnce, QueueFits, CancelWrite, HandleStopSending, Excess;
    if s.v.shutdown {
      ShutdownForever(s, e);
    } else if e.ShutdownEvent? {
    } else {
      KeepsWriter(s, e);
      if !Next(s, e).v.shutdown {
        ExcessExactly(s, e);
      }
    }
  }

  lemma ShutdownForever(s: State, e: Event)
    requires Allowed(s, e) && NoPanic(s, e) && s.v.shutdown
    ensures Next(s, e).v.shutdown
  {
    hide Done, Lost, PopStreamFrame, QueueFits;
    if e.LostEvent? {
      LostKeepsNext(s.v, e.k);
    } else if e.PopEvent? {
      PopKeepsFlags(s, e.maxBytes, e.window);
    }
  }

  /** A cancelled stream refuses new writes; the one that is blocked keeps its data until it continues. */
  lemma KeepsWriter(s: State, e: Event)
    requires Inv(s) && Allowed(s, e) && NoPanic(s, e) && s.v.cancelled && !s.v.shutdown
    ensures Next(s, e).v.cancelled
    ensures e.ResumeEvent? ==> Next(s, e).writing.None?
    ensures !e.ResumeEvent? ==> Next(s, e).writing == s.writing && Next(s, e).v.pending == s.v.pending
  {
    hide Inv, Done, PopStreamFrame, QueueFits, AllBelow, Buffer, Close, OnAcked, OnLost, OnResetAcked, OnResetLost,
         GetControlFrame;
    if Plain(e) {
      PlainKeeps(s, e);
    } else if e.PopEvent? {
      PopKeepsFlags(s, e.maxBytes, e.window);
      PopKeepsEnd(s, e.maxBytes, e.window);
    }
  }

  lemma CancelTames(s: State, e: Event)
    requires !s.v.cancelled && !s.v.shutdown && IsCancel(e)
    ensures var s' := Next(s, e);
            && s'.v.cancelled && !s'.v.shutdown && !Excess(s'.v) && s'.completed == s.completed
            && s'.writing == s.writing && s'.v.pending == s.v.pending
  {
    hide AllBelow, Done;
  }

  lemma {:induction false} StepsTame(states: seq<State>, es: seq<Event>, i: nat)
    requires Steps(states, es) && Inv(states[0]) && Tame(states[0]) && i <= |es|
    ensures Inv(states[i]) && Tame(states[i])
  {
    hide Inv, Tame, Next, NoPanic;
    if i > 0 {
      StepsTame(states, es, i - 1);
      StepInv(states[i - 1], es[i - 1]);
      TameForever(states[i - 1], es[i - 1]);
    }
  }

  lemma TameNotStuck(s: State)
    requires Tame(s)
    ensures !Stuck(s)
  {
  }

  /** A stream that is cancelled while a Write is blocked gets stuck if that Write continues with room in the buffer,
      which STOP_SENDING makes if there is none. */
  lemma Refills(s: State)
    requires Inv(s) && s.v.cancelled && !s.v.shutdown && !s.completed && !Excess(s.v) && BlockedWrite(s)
    ensures CanGetStuck(s)
  {
    hide Inv, Stuck, Excess, HandleStopSending, WriteOnce, BlockedWrite;
    var stop, resume := StopSendingEvent(0), ResumeEvent(false);
    if s.v.reliable == 0 {
      RefillsNow(s);
      StepInv(s, resume);
      var states, es := [s, Next(s, resume)], [resume];
      assert Steps(states, es);
    } else {
      StepInv(s, stop);
      var s1 := Next(s, stop);
      StopEmpties(s);
      RefillsNow(s1);
      StepInv(s1, resume);
      var states, es := [s, s1, Next(s1, resume)], [stop, resume];
      assert Steps(states, es);
    }
  }

  lemma RefillsNow(s: State)
    requires Inv(s) && s.v.cancelled && !s.v.shutdown && !s.completed && !Excess(s.v) && BlockedWrite(s)
    requires s.v.reliable == 0
    ensures s.writing.Some? && |s.v.pending| <= |s.v.written| && Stuck(WriteOnce(s, false).0)
  {
    hide Accounted, Reporting, Reported, Delivering, Live, Done, Frames;
    assert s.v.next == None;
  }

  lemma StopEmpties(s: State)
    requires s.v.cancelled && !s.v.shutdown && s.v.reliable != 0
    ensures var s' := HandleStopSending(s, 0);
            && s'.v.cancelled && !s'.v.shutdown && s'.completed == s.completed && !Excess(s'.v) && s'.v.reliable == 0
            && (BlockedWrite(s') <==> BlockedWrite(s))
  {
  }

  lemma NotCompletedYet(s: State)
    requires Inv(s) && !s.v.cancelled && !s.v.shutdown && s.v.pending != []
    ensures !s.completed
  {
  }

  /** Whether a stream can get stuck is decided when it is cancelled, by its owner or by STOP_SENDING: it can exactly if
      a Write is blocked then with data that would fit into an empty buffer. */
  lemma CancelExactly(s: State, e: Event)
    requires Inv(s) && !s.v.cancelled && !s.v.shutdown && IsCancel(e)
    ensures CanGetStuck(Next(s, e)) <==> BlockedWrite(s)
  {
    hide Inv, Next, Stuck, Excess;
    StepInv(s, e);
    CancelTames(s, e);
    if BlockedWrite(s) {
      NotCompletedYet(s);
      Refills(Next(s, e));
    } else {
      forall states: seq<State>, es: seq<Event> | Steps(states, es) && states[0] == Next(s, e)
        ensures !Stuck(states[|es|])
      {
        StepsTame(states, es, |es|);
        TameNotStuck(states[|es|]);
      }
    }
  }

  /** Everything that has to be acknowledged was: the reset, and all data below the reliable size; and the application
      knows. */
  ghost predicate Settled(s: State) {
    && (s.flagged || s.v.finishedWriting)
    && s.queued == None && !ResetInFlight(s.resets, s.v.reliable)
    && s.v.queue == [] && s.v.writeOffset >= s.v.reliable && (s.v.reliable > 0 ==> s.v.inFlight == [])
  }

  /** Then the stream was reported as completed, unless it is stuck. */
  lemma SettledCompletes(s: State)
    requires Inv(s) && s.v.cancelled && !s.v.shutdown && Settled(s)
    ensures s.completed <==> !Stuck(s)
  {
    hide Delivering, Frames, Live;
  }

  /** A stream that no blocked Write can fill again completes in every run, as soon as the reset and the reliable data
      are acknowledged. */
  lemma CancelledCompletesAlways(states: seq<State>, es: seq<Event>, i: nat)
    requires Steps(states, es) && 0 < i <= |es| && Inv(states[0])
    requires !states[0].v.cancelled && !states[0].v.shutdown && IsCancel(es[0]) && !BlockedWrite(states[0])
    requires !states[i].v.shutdown && Settled(states[i])
    ensures states[i].completed
  {
    hide Inv, Next, Stuck, Excess, Settled, NoPanic, BlockedWrite;
    assert states[1] == Next(states[0], es[0]);
    StepInv(states[0], es[0]);
    CancelTames(states[0], es[0]);
    SameWriter(states[0], states[1]);
    StepsTame(states[1..], es[1..], i - 1);
    TameNotStuck(states[i]);
    SettledCompletes(states[i]);
  }

  lemma SameWriter(s: State, s': State)
    requires s'.writing == s.writing && s'.v.pending == s.v.pending
    ensures BlockedWrite(s') <==> BlockedWrite(s)
  {
  }
}

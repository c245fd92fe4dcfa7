/** How a blocked Write is woken up: the channel of capacity one that `signalWrite` fills. */
module SendWakeups {
  import opened Protocol
  import opened StreamFrames
  import opened SendLedger
  import opened SendSpec
  import opened SendRuns

  /** The stream, and whether there is a signal in the channel. */
  datatype Waking = Waking(s: State, signal: bool)

  /** A step of the stream; the deadline timer waking up the Write; a new write deadline. */
  datatype WakeEvent = StreamStep(e: Event) | TimerFires(deadlineOver: bool) | DeadlineChanges

  /** The steps that signal. */
  ghost predicate Signals(s: State, e: Event)
    requires Allowed(s, e) && NoPanic(s, e)
  {
    match e
    case PopEvent(_, _) =>
      var v, v' := s.v, Next(s, e).v;
      v'.writeOffset > v.writeOffset && if v.next.Some? then v'.next.None? else |v'.pending| <= MAX_PACKET_BUFFER_SIZE
    case CancelEvent(_) => !s.v.shutdown && !s.v.cancelled
    case StopSendingEvent(_) => !s.v.shutdown && !(s.v.cancelled && s.v.reliable == 0)
    case ShutdownEvent => true
    case _ => false
  }

  /** A Write waits for the signal, unless its timer fires. */
  ghost predicate CanStep(w: Waking, we: WakeEvent) {
    match we
    case StreamStep(e) => Allowed(w.s, e) && NoPanic(w.s, e) && (e.ResumeEvent? ==> w.signal)
    case TimerFires(deadlineOver) => Allowed(w.s, ResumeEvent(deadlineOver)) && NoPanic(w.s, ResumeEvent(deadlineOver))
    case DeadlineChanges => true
  }

  ghost function Woken(w: Waking, we: WakeEvent): Waking
    requires CanStep(w, we)
  {
    match we
    case StreamStep(e) => Waking(Next(w.s, e), (w.signal && !e.ResumeEvent?) || Signals(w.s, e))
    case TimerFires(deadlineOver) => w.(s := Next(w.s, ResumeEvent(deadlineOver)))
    case DeadlineChanges => w.(signal := true)
  }

  /** A Write that waits without a signal could not return: it still has data, the stream is neither cancelled nor shut
      down, and there is no room in the buffer; or there is room but the buffer is not empty, and the Write is signalled
      once it is. */
  ghost predicate Awake(w: Waking) {
    w.s.writing.Some? && !w.signal ==>
      && w.s.v.pending != [] && !w.s.v.cancelled && !w.s.v.shutdown
      && (CanBuffer(w.s.v) ==> w.s.v.next.Some?)
  }

  lemma WaitsWithReason(s: State, deadlineOver: bool)
    requires s.writing.Some? && |s.v.pending| <= |s.v.written|
    ensures Awake(Waking(WriteOnce(s, deadlineOver).0, false))
  {
    hide Done, Buffer;
  }

  lemma BeginsWithReason(s: State, e: Event)
    requires e.WriteEvent? && Allowed(s, e)
    ensures Awake(Waking(Next(s, e), false))
  {
    hide Done, WriteOnce, CanBuffer;
    if !s.v.cancelled && !s.v.shutdown && !s.v.finishedWriting && !e.deadlineOver && e.p != [] {
      WaitsWithReason(s.(v := s.v.(pending := e.p, written := s.v.written + e.p), writing := Some(|e.p|)),
                      e.deadlineOverNow);
    }
  }

  lemma PopWakes(s: State, e: Event)
    requires Inv(s) && e.PopEvent? && Allowed(s, e) && NoPanic(s, e) && Awake(Waking(s, false)) && !Signals(s, e)
    ensures Awake(Waking(Next(s, e), false))
  {
    hide Inv, MaxDataLen, QueueFits, PopRetransmission, NewView, CanBuffer;
    PopKeepsFlags(s, e.maxBytes, e.window);
    if s.writing.Some? && !s.v.shutdown {
      PopFacts(s);
      var v := s.v;
      if v.queue != [] {
        HeadFits(s);
        RetransmissionFlags(s, e.maxBytes);
        SameRoom(v, PopRetransmission(s, e.maxBytes).0.v);
      } else {
        var maxData := Min(e.window, MaxDataLen(s.streamId, v.writeOffset, e.maxBytes));
        if maxData > 0 {
          NewWakes(v, maxData);
        }
      }
    }
  }

  lemma SameRoom(v: View, v': View)
    requires v'.next == v.next && v'.pending == v.pending
    ensures CanBuffer(v') <==> CanBuffer(v)
  {
  }

  lemma NewWakes(v: View, maxData: nat)
    requires maxData > 0 && v.pending != [] && (v.next.Some? ==> v.next.value.data != [])
    ensures var v' := NewView(v, maxData);
            && v'.writeOffset > v.writeOffset
            && (!(if v.next.Some? then v'.next.None? else |v'.pending| <= MAX_PACKET_BUFFER_SIZE) ==>
                  v'.pending != [] && (CanBuffer(v') ==> v'.next.Some?))
  {
  }

  lemma StepAwake(w: Waking, we: WakeEvent)
    requires Inv(w.s) && Awake(w) && CanStep(w, we)
    ensures Inv(Woken(w, we).s) && Awake(Woken(w, we))
  {
    hide Inv, QueueFits, Next, CanBuffer, Allowed, NoPanic;
    match we
    case DeadlineChanges =>
    case TimerFires(deadlineOver) =>
      StepInv(w.s, ResumeEvent(deadlineOver));
      ResumeAwake(w.s, deadlineOver, w.signal);
    case StreamStep(e) =>
      StepInv(w.s, e);
      EventAwake(w, e);
  }

  lemma ResumeAwake(s: State, deadlineOver: bool, signal: bool)
    requires Allowed(s, ResumeEvent(deadlineOver)) && NoPanic(s, ResumeEvent(deadlineOver))
    ensures Awake(Waking(Next(s, ResumeEvent(deadlineOver)), signal))
  {
    hide Done, WriteOnce, CanBuffer;
    WaitsWithReason(s, deadlineOver);
  }

  lemma EventAwake(w: Waking, e: Event)
    requires Inv(w.s) && Awake(w) && CanStep(w, StreamStep(e))
    ensures Awake(Woken(w, StreamStep(e)))
  {
    hide Inv, Done, QueueFits, CanBuffer, BeginWrite, WriteOnce, PopStreamFrame, Close, OnAcked, OnLost, OnResetAcked,
         OnResetLost, GetControlFrame, AllBelow;
    if Plain(e) {
      PlainKeeps(w.s, e);
      SameRoom(w.s.v, Next(w.s, e).v);
    } else {
      match e {
        case WriteEvent(_, _, _) => BeginsWithReason(w.s, e);
        case ResumeEvent(deadlineOver) => WaitsWithReason(w.s, deadlineOver);
        case PopEvent(maxBytes, window) =>
          PopKeepsFlags(w.s, maxBytes, window);
          if !w.signal && !Signals(w.s, e) {
            PopWakes(w.s, e);
          }
        case BoundaryEvent => SameRoom(w.s.v, Next(w.s, e).v);
        case _ =>
      }
    }
  }

  ghost predicate IsWakeRun(ws: seq<Waking>, es: seq<WakeEvent>) {
    && |ws| == |es| + 1
    && (exists id: nat, supports: bool :: id <= MAX_BYTE_COUNT && ws[0] == Waking(Fresh(id, supports), false))
    && forall i :: 0 <= i < |es| ==> CanStep(ws[i], es[i]) && ws[i + 1] == Woken(ws[i], es[i])
  }

  /** No wake-up of a Write is lost in any run. */
  lemma {:induction false} NoLostWakeup(ws: seq<Waking>, es: seq<WakeEvent>, i: nat)
    requires IsWakeRun(ws, es) && i <= |es|
    ensures Inv(ws[i].s) && Awake(ws[i])
  {
    hide Inv, Awake, CanStep, Woken;
    if i == 0 {
      var id: nat, supports: bool :| id <= MAX_BYTE_COUNT && ws[0] == Waking(Fresh(id, supports), false);
      FreshInv(id, supports);
      NobodyWaits(id, supports);
    } else {
      NoLostWakeup(ws, es, i - 1);
      StepAwake(ws[i - 1], es[i - 1]);
    }
  }

  lemma NobodyWaits(id: nat, supports: bool)
    ensures Awake(Waking(Fresh(id, supports), false))
  {
  }

  /** A Write that waits although it could return is signalled by the packet that takes the rest of the buffer. */
  lemma SignalledWhenEmpty(w: Waking, e: Event)
    requires Inv(w.s) && Awake(w) && CanStep(w, StreamStep(e)) && e.PopEvent? && w.s.writing.Some? && !w.signal
    requires CanBuffer(w.s.v) && Next(w.s, e).v.next == None
    ensures Woken(w, StreamStep(e)).signal
  {
    hide Inv, MaxDataLen, QueueFits, PopRetransmission, NewView, CanBuffer;
    var s, v := w.s, w.s.v;
    PopFacts(s);
    if v.queue != [] {
      HeadFits(s);
      RetransmissionFlags(s, e.maxBytes);
    } else {
      var maxData := Min(e.window, MaxDataLen(s.streamId, v.writeOffset, e.maxBytes));
      if maxData > 0 {
        NewWakes(v, maxData);
      }
    }
  }
}

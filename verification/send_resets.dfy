/** What the RESET_STREAM frames of a send stream say. */
module SendResets {
  import opened Protocol
  import opened StreamFrames
  import opened SendLedger
  import opened SendSpec
  import opened SendRuns
  import opened SendProgress

  /** A reset carries this error code, and a final size that nothing sent and nothing still to be sent exceeds. */
  predicate Right(f: ResetFrame, code: nat, v: View) {
    f.errorCode == code && f.reliableSize <= f.finalSize && v.writeOffset <= f.finalSize && v.reliable <= f.finalSize
  }

  /** All resets in flight and the one that is queued do. */
  ghost predicate AllRight(s: State, code: nat) {
    && s.v.cancelled && s.errorCode == code
    && (s.queued.Some? ==> Right(s.queued.value, code, s.v))
    && (forall k :: 0 <= k < |s.resets| ==> Right(s.resets[k], code, s.v))
  }

  /** The event cancels the stream, unless it was cancelled before. */
  predicate Cancels(s: State, e: Event) {
    IsCancel(e) && !s.v.shutdown
  }

  /** Nothing about resets changes, and nothing new is sent. */
  predicate Unmoved(s: State, s': State) {
    && s'.v.cancelled == s.v.cancelled && s'.v.writeOffset == s.v.writeOffset && s'.v.reliable == s.v.reliable
    && s'.errorCode == s.errorCode && s'.resets == s.resets && s'.queued == s.queued
  }

  lemma ResumeUnmoved(s: State, deadlineOver: bool)
    requires s.writing.Some? && |s.v.pending| <= |s.v.written|
    ensures Unmoved(s, WriteOnce(s, deadlineOver).0)
  {
    hide Done, Buffer;
  }

  lemma WriteUnmoved(s: State, p: seq<byte>, deadlineOver: bool, deadlineOverNow: bool)
    requires s.writing.None?
    ensures Unmoved(s, BeginWrite(s, p, deadlineOver, deadlineOverNow).0)
  {
    hide Done, WriteOnce;
    if !s.v.cancelled && !s.v.shutdown && !s.v.finishedWriting && !deadlineOver && p != [] {
      ResumeUnmoved(s.(v := s.v.(pending := p, written := s.v.written + p), writing := Some(|p|)), deadlineOverNow);
    }
  }

  lemma CallsUnmoved(s: State, e: Event)
    requires Allowed(s, e) && NoPanic(s, e)
    requires e.CloseEvent? || e.ShutdownEvent? || (e.CancelEvent? && s.v.cancelled)
    ensures Unmoved(s, Next(s, e))
  {
    hide Done;
  }

  lemma AckedUnmoved(s: State, k: nat)
    requires k < |s.v.inFlight|
    ensures Unmoved(s, OnAcked(s, k))
  {
    hide Done, Without;
  }

  lemma LostUnmoved(s: State, k: nat)
    requires k < |s.v.inFlight|
    ensures Unmoved(s, OnLost(s, k))
  {
    hide Done, Lost;
    LostKeeps(s.v, k);
  }

  /** The first cancelling event decides the error code. */
  lemma FirstCancels(s: State, e: Event)
    requires Inv(s) && !s.v.cancelled && Allowed(s, e) && NoPanic(s, e)
    ensures if Cancels(s, e) then AllRight(Next(s, e), e.errorCode) else !Next(s, e).v.cancelled
  {
    hide Inv, BeginWrite, WriteOnce, Close, CloseForShutdown, OnAcked, OnLost, PopStreamFrame, OnResetAcked,
         OnResetLost, CancelWrite, HandleStopSending;
    NoResets(s);
    match e {
      case WriteEvent(p, deadlineOver, deadlineOverNow) => WriteUnmoved(s, p, deadlineOver, deadlineOverNow);
      case ResumeEvent(deadlineOver) => ResumeUnmoved(s, deadlineOver);
      case CloseEvent => CallsUnmoved(s, e);
      case ShutdownEvent => CallsUnmoved(s, e);
      case AckedEvent(k) => AckedUnmoved(s, k);
      case LostEvent(k) => LostUnmoved(s, k);
      case PopEvent(maxBytes, window) => PopKeeps(s, maxBytes, window);
      case CancelEvent(_) => CancelsNow(s, e);
      case StopSendingEvent(_) => CancelsNow(s, e);
      case _ =>
    }
  }

  lemma NoResets(s: State)
    requires Inv(s) && !s.v.cancelled
    ensures s.resets == [] && s.queued == None
  {
    hide Conserving;
  }

  lemma CancelsNow(s: State, e: Event)
    requires Allowed(s, e) && NoPanic(s, e) && IsCancel(e) && !s.v.cancelled && s.resets == []
    ensures if s.v.shutdown then Next(s, e) == s else AllRight(Next(s, e), e.errorCode)
  {
    hide AllBelow, NextBelow;
  }

  lemma LostKeeps(v: View, k: nat)
    requires k < |v.inFlight|
    ensures var v' := Lost(v, k);
            v'.cancelled == v.cancelled && v'.writeOffset == v.writeOffset && v'.reliable == v.reliable
  {
  }

  /** Sending data stays within the reliable size of a cancelled stream. */
  lemma PopKeeps(s: State, maxBytes: nat, window: nat)
    requires Inv(s) && QueueFits(s) && s.streamId <= MAX_BYTE_COUNT
    requires s.v.writeOffset + window <= MAX_BYTE_COUNT && maxBytes <= MAX_PACKET_BUFFER_SIZE
    ensures var s' := PopStreamFrame(s, maxBytes, window).0;
            && s'.v.cancelled == s.v.cancelled && s'.v.reliable == s.v.reliable && s'.errorCode == s.errorCode
            && s'.resets == s.resets && s'.queued == s.queued
            && (s.v.cancelled ==> s'.v.writeOffset == s.v.writeOffset || s'.v.writeOffset <= s.v.reliable)
  {
    hide Inv, PopStreamFrame, QueueFits, Length, Unsent;
    PopsExactly(s, maxBytes, window);
  }

  /** No later event changes it. */
  lemma LaterKeeps(s: State, e: Event, code: nat)
    requires Inv(s) && AllRight(s, code) && Allowed(s, e) && NoPanic(s, e)
    ensures AllRight(Next(s, e), code)
  {
    hide Inv, BeginWrite, WriteOnce, Close, CloseForShutdown, OnAcked, OnLost, PopStreamFrame, OnResetAcked,
         OnResetLost, CancelWrite, HandleStopSending, GetControlFrame;
    match e {
      case WriteEvent(p, deadlineOver, deadlineOverNow) => WriteUnmoved(s, p, deadlineOver, deadlineOverNow);
      case ResumeEvent(deadlineOver) => ResumeUnmoved(s, deadlineOver);
      case CloseEvent => CallsUnmoved(s, e);
      case ShutdownEvent => CallsUnmoved(s, e);
      case CancelEvent(_) => CallsUnmoved(s, e);
      case AckedEvent(k) => AckedUnmoved(s, k);
      case LostEvent(k) => LostUnmoved(s, k);
      case PopEvent(maxBytes, window) => PopKeeps(s, maxBytes, window);
      case _ => ResetsKeep(s, e, code);
    }
  }

  lemma ResetsKeep(s: State, e: Event, code: nat)
    requires AllRight(s, code) && Allowed(s, e) && NoPanic(s, e)
    requires e.StopSendingEvent? || e.ControlEvent? || e.ResetAckedEvent? || e.ResetLostEvent?
    ensures AllRight(Next(s, e), code)
  {
    hide Done, PopStreamFrame, BeginWrite, WriteOnce, OnAcked, OnLost, Close, CloseForShutdown, CancelWrite;
  }

  /** Event `i` of a run is the one that cancels the stream. */
  ghost predicate CancelledBy(states: seq<State>, es: seq<Event>, i: nat) {
    && i < |es| && i < |states| && Cancels(states[i], es[i])
    && forall j: nat :: j < i ==> !Cancels(states[j], es[j])
  }

  /** In every run, a stream is cancelled exactly by the first CancelWrite or STOP_SENDING before a shutdown, and every
      reset that is queued or sent from then on carries the error code of this event. */
  lemma {:induction false} ResetsCarryCode(states: seq<State>, es: seq<Event>, n: nat)
    requires IsRun(states, es) && n <= |es|
    ensures states[n].v.cancelled <==> exists i: nat :: i < n && CancelledBy(states, es, i)
    ensures !states[n].v.cancelled ==> forall i: nat :: i < n ==> !Cancels(states[i], es[i])
    ensures forall i: nat :: i < n && CancelledBy(states, es, i) ==> AllRight(states[n], es[i].errorCode)
  {
    hide Inv, Next, NoPanic, Allowed, AllRight;
    RunInv(states, es, n);
    if n == 0 {
      NotCancelledAtFirst(states, es);
    } else {
      ResetsCarryCode(states, es, n - 1);
      RunInv(states, es, n - 1);
      var s, e := states[n - 1], es[n - 1];
      if s.v.cancelled {
        var i: nat :| i < n - 1 && CancelledBy(states, es, i);
        LaterKeeps(s, e, es[i].errorCode);
        OnlyFirst(states, es, i);
        StaysCancelled(states[n], es[i].errorCode);
      } else {
        FirstCancels(s, e);
        if Cancels(s, e) {
          assert CancelledBy(states, es, n - 1);
          OnlyFirst(states, es, n - 1);
          StaysCancelled(states[n], e.errorCode);
        }
      }
    }
  }

  lemma NotCancelledAtFirst(states: seq<State>, es: seq<Event>)
    requires IsRun(states, es)
    ensures !states[0].v.cancelled
  {
  }

  lemma StaysCancelled(s: State, code: nat)
    requires AllRight(s, code)
    ensures s.v.cancelled
  {
  }

  lemma OnlyFirst(states: seq<State>, es: seq<Event>, i: nat)
    requires CancelledBy(states, es, i)
    ensures forall j: nat :: CancelledBy(states, es, j) ==> j == i
  {
    forall j: nat | CancelledBy(states, es, j)
      ensures j == i
    {
    }
  }

  /** A reset with this reliable size was acknowledged. */
  ghost predicate ResetAcked(states: seq<State>, es: seq<Event>, n: nat, r: nat)
    requires n <= |es| && n <= |states|
  {
    exists i: nat :: i < n && AckedBy(states[i], es[i], r)
  }

  predicate AckedBy(s: State, e: Event, r: nat) {
    e.ResetAckedEvent? && e.k < |s.resets| && s.resets[e.k].reliableSize == r
  }

  /** A reset for the current reliable size is queued or in flight. */
  ghost predicate Outstanding(s: State) {
    s.queued.Some? || ResetInFlight(s.resets, s.v.reliable)
  }

  lemma StepOwes(s: State, e: Event)
    requires Inv(s) && Allowed(s, e) && NoPanic(s, e)
    ensures var s' := Next(s, e);
            && (s.v.cancelled && s'.v.reliable == s.v.reliable && Outstanding(s) ==>
                  Outstanding(s') || AckedBy(s, e, s.v.reliable))
            && (s.v.cancelled && s'.v.reliable != s.v.reliable ==> Outstanding(s'))
            && (!s.v.cancelled && s'.v.cancelled ==> Outstanding(s'))
  {
    hide BeginWrite, WriteOnce, Close, CloseForShutdown, OnAcked, OnLost, PopStreamFrame, OnResetAcked, OnResetLost,
         CancelWrite, HandleStopSending, GetControlFrame, ResetInFlight, Inv;
    match e {
      case WriteEvent(p, deadlineOver, deadlineOverNow) => WriteUnmoved(s, p, deadlineOver, deadlineOverNow);
      case ResumeEvent(deadlineOver) => ResumeUnmoved(s, deadlineOver);
      case CloseEvent => CallsUnmoved(s, e);
      case ShutdownEvent => CallsUnmoved(s, e);
      case AckedEvent(k) => AckedUnmoved(s, k);
      case LostEvent(k) => LostUnmoved(s, k);
      case PopEvent(maxBytes, window) => PopKeeps(s, maxBytes, window);
      case CancelEvent(_) => CancelOwes(s, e);
      case StopSendingEvent(_) => CancelOwes(s, e);
      case BoundaryEvent =>
      case _ => ResetsOwe(s, e);
    }
  }

  lemma CancelOwes(s: State, e: Event)
    requires Allowed(s, e) && NoPanic(s, e) && IsCancel(e)
    ensures Next(s, e).queued.Some? || Unmoved(s, Next(s, e))
  {
    hide AllBelow, NextBelow, Done;
  }

  lemma ResetsOwe(s: State, e: Event)
    requires Inv(s) && Allowed(s, e) && NoPanic(s, e)
    requires e.ControlEvent? || e.ResetAckedEvent? || e.ResetLostEvent?
    ensures var s' := Next(s, e);
            && s'.v == s.v && (Outstanding(s) ==> Outstanding(s') || AckedBy(s, e, s.v.reliable))
  {
    hide Conserving, Done, Reporting, Reported, Writing;
    var s' := Next(s, e);
    if e.ControlEvent? {
      if s.queued.Some? {
        assert s'.resets[|s.resets|] == s.queued.value;
      }
    } else if ResetInFlight(s.resets, s.v.reliable) {
      var k :| 0 <= k < |s.resets| && s.resets[k].reliableSize == s.v.reliable;
      if k < e.k {
        assert s'.resets[k] == s.resets[k];
      } else if k > e.k {
        assert s'.resets[k - 1] == s.resets[k];
      }
    }
  }

  /** In every run, a reset for the current reliable size of a cancelled stream is queued, in flight or was
      acknowledged: it is sent, and sent again as long as it is lost. */
  lemma {:induction false} ResetIsOwed(states: seq<State>, es: seq<Event>, n: nat)
    requires IsRun(states, es) && n <= |es|
    ensures states[n].v.cancelled ==> Outstanding(states[n]) || ResetAcked(states, es, n, states[n].v.reliable)
  {
    hide Inv, Next, NoPanic, Allowed, Outstanding, AckedBy;
    if n == 0 {
      NotCancelledAtFirst(states, es);
    } else {
      ResetIsOwed(states, es, n - 1);
      RunInv(states, es, n - 1);
      var s, e := states[n - 1], es[n - 1];
      StepOwes(s, e);
      if ResetAcked(states, es, n - 1, s.v.reliable) {
        var i: nat :| i < n - 1 && AckedBy(states[i], es[i], s.v.reliable);
        assert i < n && AckedBy(states[i], es[i], s.v.reliable);
      }
      if AckedBy(s, e, s.v.reliable) {
        assert n - 1 < n && AckedBy(states[n - 1], es[n - 1], s.v.reliable);
      }
    }
  }

  /** The reset that is given to the packet is the one that is queued; from then on it is in flight. */
  lemma ResetIsSent(s: State)
    ensures var (s', f) := GetControlFrame(s);
            && f == s.queued && s'.queued == None && s'.v == s.v
            && multiset(s'.resets) == multiset(s.resets) + (if f.Some? then multiset{f.value} else multiset{})
  {
  }
}

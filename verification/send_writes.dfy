/** What a call of Write returns, and what became of its data. */
module SendWrites {
  import opened Protocol
  import opened StreamFrames
  import opened SendLedger
  import opened SendSpec
  import opened SendRuns
  import opened SendProgress

  /** A Write of `p` is under way: the data still in its hands is the end of `p`. */
  ghost predicate Underway(s: State, p: seq<byte>) {
    && s.writing == Some(|p|) && |s.v.pending| <= |p|
    && s.v.pending == p[|p| - |s.v.pending|..]
  }

  /** As long as the stream is neither cancelled nor shut down, all of `p` counts as written behind `before`. */
  ghost predicate Written(s: State, before: seq<byte>, p: seq<byte>) {
    !s.v.cancelled && !s.v.shutdown ==> s.v.written == before + p
  }

  /** One round of Write: it goes on waiting only for a reason; otherwise it returns how many bytes of `p` were taken.
      */
  lemma RoundReturns(s: State, p: seq<byte>, deadlineOver: bool, before: seq<byte>)
    requires Inv(s) && Underway(s, p) && Written(s, before, p)
    ensures s.writing.Some? && |s.v.pending| <= |s.v.written|
    ensures var (s', r) := WriteOnce(s, deadlineOver);
            match r
            case Blocked =>
              && Underway(s', p) && Written(s', before, p) && s' == s
              && s.v.pending != [] && !CanBuffer(s.v) && !deadlineOver && !s.v.cancelled && !s.v.shutdown
            case Returned(n, err) => Returns(s, s', before, p, n, err)
  {
    hide Inv, Returns, StopOrWait, Buffer;
    Accounts(s);
    if CanBuffer(s.v) && s.v.pending != [] {
      BufferReturns(s, p, before);
    } else {
      StopReturns(s, p, deadlineOver, before);
    }
  }

  lemma Accounts(s: State)
    requires Inv(s) && s.writing.Some?
    ensures |s.v.pending| <= |s.v.written|
  {
    hide Conserving;
  }

  lemma BufferReturns(s: State, p: seq<byte>, before: seq<byte>)
    requires Underway(s, p) && Written(s, before, p) && s.v.pending != []
    ensures Returns(s, s.(v := s.v.(next := Buffer(s.v), pending := []), writing := None), before, p, |p|, NoError)
  {
    Cut(before, p, 0);
    assert Buffered(s.v.next) + s.v.pending + [] == Buffered(s.v.next) + s.v.pending;
  }

  lemma StopReturns(s: State, p: seq<byte>, deadlineOver: bool, before: seq<byte>)
    requires Underway(s, p) && Written(s, before, p) && |s.v.pending| <= |s.v.written|
    ensures var (s', r) := StopOrWait(s, deadlineOver);
            match r
            case Blocked => s' == s && s.v.pending != [] && !deadlineOver && !s.v.cancelled && !s.v.shutdown
            case Returned(n, err) => Returns(s, s', before, p, n, err)
  {
    hide Done;
    Cut(before, p, |s.v.pending|);
  }

  /** The Write is over: `n` bytes of `p` were taken, all of them if there is no error; with an error all of them only
      if the deadline is over when the last ones have just been sent. They are what counts as written. Without an error
      what was left in the hands of the Write is in the buffer now. */
  ghost predicate Returns(s: State, s': State, before: seq<byte>, p: seq<byte>, n: int, err: WriteError) {
    && s'.writing == None && 0 <= n <= |p|
    && (err == NoError ==> n == |p|) && (err != NoError && n == |p| ==> err == DeadlineError && s.v.pending == [])
    && (err != NoError ==> n == |p| - |s.v.pending|)
    && (err == NoError ==> Unsent(s'.v) == Unsent(s.v) && s'.v.pending == [])
    && (!s'.v.cancelled && !s'.v.shutdown ==> s'.v.written == before + p[..n])
    && (err == CancelledError ==> s.v.cancelled) && (err == ShutdownError ==> s.v.shutdown) && err != ClosedError
  }

  lemma Cut(before: seq<byte>, p: seq<byte>, left: nat)
    requires left <= |p|
    ensures (before + p)[..|before + p| - left] == before + p[..|p| - left] && p[..|p|] == p
  {
  }

  /** Nothing else disturbs a Write: frames take the next bytes out of its hands, one after the other. */
  lemma OthersKeep(s: State, e: Event, before: seq<byte>, p: seq<byte>)
    requires Inv(s) && Underway(s, p) && Written(s, before, p) && Allowed(s, e) && NoPanic(s, e)
    requires !e.WriteEvent? && !e.ResumeEvent?
    ensures Underway(Next(s, e), p) && Written(Next(s, e), before, p)
  {
    hide Inv, Close, CloseForShutdown, CancelWrite, HandleStopSending, OnAcked, OnLost, PopStreamFrame, OnResetAcked,
         OnResetLost;
    match e {
      case PopEvent(maxBytes, window) => PopTakes(s, maxBytes, window, p);
      case AckedEvent(_) => OutcomeTakesNothing(s, e);
      case LostEvent(_) => OutcomeTakesNothing(s, e);
      case ResetAckedEvent(_) => OutcomeTakesNothing(s, e);
      case ResetLostEvent(_) => OutcomeTakesNothing(s, e);
      case _ => CallTakesNothing(s, e);
    }
  }

  /** The Write keeps its data, and what was written stays; a stream may be cancelled or shut down. */
  predicate Untaken(s: State, s': State) {
    && s'.writing == s.writing && s'.v.pending == s.v.pending && s'.v.written == s.v.written
    && (s.v.cancelled ==> s'.v.cancelled) && (s.v.shutdown ==> s'.v.shutdown)
  }

  lemma CallTakesNothing(s: State, e: Event)
    requires Allowed(s, e) && NoPanic(s, e)
    requires || e.CloseEvent? || e.BoundaryEvent? || e.ShutdownEvent? || e.CancelEvent? || e.StopSendingEvent?
             || e.ControlEvent?
    ensures Untaken(s, Next(s, e))
  {
    hide Done, AllBelow, NextBelow, PopStreamFrame, BeginWrite, WriteOnce, OnAcked, OnLost, OnResetAcked, OnResetLost;
  }

  lemma OutcomeTakesNothing(s: State, e: Event)
    requires Allowed(s, e) && NoPanic(s, e)
    requires e.AckedEvent? || e.LostEvent? || e.ResetAckedEvent? || e.ResetLostEvent?
    ensures Untaken(s, Next(s, e))
  {
    hide Done, Lost, Without, WithoutReset, PopStreamFrame, BeginWrite, WriteOnce, Close, CloseForShutdown, CancelWrite,
         HandleStopSending;
    if e.LostEvent? {
      LostTakesNothing(s.v, e.k);
    }
  }

  lemma LostTakesNothing(v: View, k: nat)
    requires k < |v.inFlight|
    ensures var v' := Lost(v, k);
            && v'.pending == v.pending && v'.written == v.written
            && v'.cancelled == v.cancelled && v'.shutdown == v.shutdown
  {
  }

  lemma PopTakes(s: State, maxBytes: nat, window: nat, p: seq<byte>)
    requires Inv(s) && Underway(s, p) && QueueFits(s) && s.streamId <= MAX_BYTE_COUNT
    requires s.v.writeOffset + window <= MAX_BYTE_COUNT && maxBytes <= MAX_PACKET_BUFFER_SIZE
    ensures var s' := PopStreamFrame(s, maxBytes, window).0;
            && Underway(s', p) && s'.v.written == s.v.written
            && s'.v.cancelled == s.v.cancelled && s'.v.shutdown == s.v.shutdown
  {
    hide Inv, PopStreamFrame, QueueFits, Underway, SentNew, SentAgain, HasNew, RoomForByte, Length;
    PopsExactly(s, maxBytes, window);
    var (s', f) := PopStreamFrame(s, maxBytes, window);
    if MaySend(s) && s.v.queue != [] {
      HeadFits(s);
      if f.Some? {
        AgainTakes(s, maxBytes, s', f.value, p);
      }
    } else if MaySend(s) && HasNew(s) {
      if f.Some? {
        NewTakes(s, maxBytes, window, s', f.value, p);
      }
    } else {
      FinTakes(s, s', p);
    }
  }

  lemma AgainTakes(s: State, maxBytes: nat, s': State, f: StreamFrame, p: seq<byte>)
    requires s.v.queue != [] && s.streamId <= MAX_BYTE_COUNT && s.v.queue[0].End() <= MAX_BYTE_COUNT
    requires SentAgain(s, maxBytes, s', f) && Underway(s, p)
    ensures Underway(s', p) && s'.v.written == s.v.written
    ensures s'.v.cancelled == s.v.cancelled && s'.v.shutdown == s.v.shutdown
  {
    hide Length;
  }

  lemma NewTakes(s: State, maxBytes: nat, window: nat, s': State, f: StreamFrame, p: seq<byte>)
    requires s.streamId <= MAX_BYTE_COUNT && f.End() <= MAX_BYTE_COUNT
    requires SentNew(s, maxBytes, window, s', f) && Underway(s, p)
    ensures Underway(s', p) && s'.v.written == s.v.written
    ensures s'.v.cancelled == s.v.cancelled && s'.v.shutdown == s.v.shutdown
  {
    hide Length, Unsent;
    assert Remains(s.v, s'.v, f);
  }

  lemma FinTakes(s: State, s': State, p: seq<byte>)
    requires Underway(s, p) && s'.writing == s.writing && s'.v.pending == s.v.pending
    ensures Underway(s', p)
  {
  }

  /** The first critical section of Write: refused without taking anything, or the first round. */
  lemma BeginReturns(s: State, p: seq<byte>, deadlineOver: bool, deadlineOverNow: bool)
    requires Inv(s) && s.writing.None?
    ensures var (s', r) := BeginWrite(s, p, deadlineOver, deadlineOverNow);
            var refused := s.v.cancelled || s.v.shutdown || s.v.finishedWriting || deadlineOver || p == [];
            if refused then
              && s'.v == s.v && s'.writing == None
              && r == Returned(0, if s.v.cancelled then CancelledError else if s.v.shutdown then ShutdownError
                                  else if s.v.finishedWriting then ClosedError
                                  else if deadlineOver then DeadlineError else NoError)
            else
              match r
              case Blocked => Underway(s', p) && Written(s', s.v.written, p)
              case Returned(n, err) => s'.writing == None && 0 <= n <= |p| && s'.v.written == s.v.written + p[..n]
                                       && (err == NoError <==> n == |p|)
  {
    hide Inv, WriteOnce, Done;
    if !s.v.cancelled && !s.v.shutdown && !s.v.finishedWriting && !deadlineOver && p != [] {
      var s1 := s.(v := s.v.(pending := p, written := s.v.written + p), writing := Some(|p|));
      StartsInv(s, p);
      RoundReturns(s1, p, deadlineOverNow, s.v.written);
      RoundKeeps(s1, deadlineOverNow);
    }
  }

  lemma StartsInv(s: State, p: seq<byte>)
    requires Inv(s) && s.writing.None? && !s.v.cancelled && !s.v.shutdown && !s.v.finishedWriting
    ensures Inv(s.(v := s.v.(pending := p, written := s.v.written + p), writing := Some(|p|)))
  {
    hide Conserving;
    WriteStarts(s.v, p);
  }

  lemma RoundKeeps(s: State, deadlineOver: bool)
    requires s.writing.Some? && |s.v.pending| <= |s.v.written|
    ensures var s' := WriteOnce(s, deadlineOver).0; s'.v.cancelled == s.v.cancelled && s'.v.shutdown == s.v.shutdown
  {
    hide Report, Buffer, CanBuffer;
    ReportKeeps(s.(writing := None, flagged := true));
  }

  lemma ReportKeeps(s: State)
    ensures Report(s).v == s.v
  {
  }

  /** A Write of `p` was begun by event `i` and has not returned before event `n`. */
  ghost predicate Waits(states: seq<State>, es: seq<Event>, i: nat, n: nat, p: seq<byte>) {
    && i < n <= |es| && n < |states|
    && es[i].WriteEvent? && es[i].p == p && forall k :: i < k <= n ==> states[k].writing.Some?
  }

  /** In every run, a Write holds the end of its data as long as it waits, and the rest of it was taken in order. */
  lemma {:induction false} WriteUnderway(states: seq<State>, es: seq<Event>, i: nat, n: nat, p: seq<byte>)
    requires IsRun(states, es) && Waits(states, es, i, n, p)
    ensures Inv(states[n]) && Underway(states[n], p) && Written(states[n], states[i].v.written, p)
  {
    hide Inv, Next, NoPanic, Underway, Written, BeginWrite, WriteOnce;
    RunInv(states, es, n);
    RunInv(states, es, n - 1);
    var s, e := states[n - 1], es[n - 1];
    if n == i + 1 {
      NextIsBegin(s, e);
      BeginReturns(s, p, e.deadlineOver, e.deadlineOverNow);
    } else {
      WriteUnderway(states, es, i, n - 1, p);
      if e.ResumeEvent? {
        NextIsRound(s, e);
        RoundReturns(s, p, e.deadlineOver, states[i].v.written);
      } else {
        OthersKeep(s, e, states[i].v.written, p);
      }
    }
  }

  lemma NextIsBegin(s: State, e: Event)
    requires Allowed(s, e) && NoPanic(s, e) && e.WriteEvent?
    ensures Next(s, e) == BeginWrite(s, e.p, e.deadlineOver, e.deadlineOverNow).0
  {
  }

  lemma NextIsRound(s: State, e: Event)
    requires Allowed(s, e) && NoPanic(s, e) && e.ResumeEvent?
    ensures Next(s, e) == WriteOnce(s, e.deadlineOver).0
  {
  }

  /** What a Write that had to wait returns, in every run: the number of bytes that were taken, and these are what was
      added to the stream since it began. */
  lemma WriteReturns(states: seq<State>, es: seq<Event>, i: nat, n: nat, p: seq<byte>)
    requires IsRun(states, es) && Waits(states, es, i, n, p) && n < |es| && es[n].ResumeEvent?
    requires states[n + 1].writing.None?
    ensures states[n].writing.Some? && |states[n].v.pending| <= |states[n].v.written|
    ensures var r := WriteOnce(states[n], es[n].deadlineOver).1;
            r.Returned? && Returns(states[n], states[n + 1], states[i].v.written, p, r.n, r.err)
  {
    hide Inv, Next, NoPanic, Written, WriteOnce, Returns;
    WriteUnderway(states, es, i, n, p);
    RunInv(states, es, n);
    NextIsRound(states[n], es[n]);
    RoundReturns(states[n], p, es[n].deadlineOver, states[i].v.written);
  }

  /** SetReliableBoundary makes everything reliable that Write has taken. */
  lemma BoundaryCovers(s: State)
    requires Inv(s) && s.supportsResetStreamAt && !s.v.cancelled && !s.v.shutdown
    ensures var v := SetReliableBoundary(s).v; v.reliable == |v.written| - |v.pending|
  {
  }

  // ---- How a stream ends. ----

  /** What comes first, Close or the shutdown of the connection. */
  function FirstEnd(es: seq<Event>, n: nat): (end: Option<Event>)
    requires n <= |es|
    ensures end.Some? ==> end.value.CloseEvent? || end.value.ShutdownEvent?
  {
    if n == 0 then None
    else if FirstEnd(es, n - 1).Some? then FirstEnd(es, n - 1)
    else if es[n - 1].CloseEvent? || es[n - 1].ShutdownEvent? then Some(es[n - 1])
    else None
  }

  lemma StepEnds(s: State, e: Event)
    requires Inv(s) && Allowed(s, e) && NoPanic(s, e) && !(s.v.shutdown && s.v.finishedWriting)
    ensures var s', open := Next(s, e), !s.v.shutdown && !s.v.finishedWriting;
            && (s'.v.shutdown <==> s.v.shutdown || (open && e.ShutdownEvent?))
            && (s'.v.finishedWriting <==> s.v.finishedWriting || (open && e.CloseEvent?))
  {
    hide Inv, BeginWrite, WriteOnce, OnAcked, OnLost, PopStreamFrame, OnResetAcked, OnResetLost, CancelWrite,
         HandleStopSending, Close, CloseForShutdown;
    match e {
      case CloseEvent => EndsNow(s, e);
      case ShutdownEvent => EndsNow(s, e);
      case PopEvent(maxBytes, window) => PopEndsNothing(s, maxBytes, window);
      case WriteEvent(p, deadlineOver, deadlineOverNow) => WriteEndsNothing(s, p, deadlineOver, deadlineOverNow);
      case ResumeEvent(deadlineOver) => RoundEndsNothing(s, deadlineOver);
      case LostEvent(k) => LostEndsNothing(s, k);
      case _ => OthersEndNothing(s, e);
    }
  }

  predicate SameEnds(s: State, s': State) {
    s'.v.shutdown == s.v.shutdown && s'.v.finishedWriting == s.v.finishedWriting
  }

  lemma EndsNow(s: State, e: Event)
    requires Allowed(s, e) && NoPanic(s, e) && (e.CloseEvent? || e.ShutdownEvent?)
    ensures var s' := Next(s, e);
            if s.v.shutdown || s.v.finishedWriting then s' == s
            else s'.v.shutdown == e.ShutdownEvent? && s'.v.finishedWriting == e.CloseEvent?
  {
    hide Done;
  }

  lemma PopEndsNothing(s: State, maxBytes: nat, window: nat)
    requires Inv(s) && QueueFits(s) && s.streamId <= MAX_BYTE_COUNT
    requires s.v.writeOffset + window <= MAX_BYTE_COUNT && maxBytes <= MAX_PACKET_BUFFER_SIZE
    ensures SameEnds(s, PopStreamFrame(s, maxBytes, window).0)
  {
    hide Inv, PopStreamFrame, QueueFits, Length, Unsent, Remains, RoomForByte, HasNew;
    PopsExactly(s, maxBytes, window);
  }

  lemma RoundEndsNothing(s: State, deadlineOver: bool)
    requires s.writing.Some? && |s.v.pending| <= |s.v.written|
    ensures SameEnds(s, WriteOnce(s, deadlineOver).0)
  {
    hide Report, Buffer, CanBuffer;
    ReportKeeps(s.(writing := None, flagged := true));
  }

  lemma WriteEndsNothing(s: State, p: seq<byte>, deadlineOver: bool, deadlineOverNow: bool)
    requires s.writing.None?
    ensures SameEnds(s, BeginWrite(s, p, deadlineOver, deadlineOverNow).0)
  {
    hide Report, WriteOnce;
    ReportKeeps(s.(flagged := true));
    if !s.v.cancelled && !s.v.shutdown && !s.v.finishedWriting && !deadlineOver && p != [] {
      RoundEndsNothing(s.(v := s.v.(pending := p, written := s.v.written + p), writing := Some(|p|)), deadlineOverNow);
    }
  }

  lemma LostEndsNothing(s: State, k: nat)
    requires k < |s.v.inFlight|
    ensures SameEnds(s, OnLost(s, k))
  {
    hide Done;
  }

  lemma OthersEndNothing(s: State, e: Event)
    requires Allowed(s, e) && NoPanic(s, e)
    requires || e.BoundaryEvent? || e.CancelEvent? || e.StopSendingEvent? || e.ControlEvent? || e.AckedEvent?
             || e.ResetAckedEvent? || e.ResetLostEvent?
    ensures SameEnds(s, Next(s, e))
  {
    hide Done, AllBelow, NextBelow, Without, WithoutReset, PopStreamFrame, BeginWrite, WriteOnce, OnLost;
  }

  /** In every run, a stream is closed exactly if Close was called before the connection was shut down, and shut down
      exactly if it was the other way round. */
  lemma {:induction false} EndsFollow(states: seq<State>, es: seq<Event>, n: nat)
    requires IsRun(states, es) && n <= |es|
    ensures states[n].v.finishedWriting <==> FirstEnd(es, n) == Some(CloseEvent)
    ensures states[n].v.shutdown <==> FirstEnd(es, n) == Some(ShutdownEvent)
  {
    hide Inv, Next, NoPanic, Allowed;
    if n > 0 {
      EndsFollow(states, es, n - 1);
      RunInv(states, es, n - 1);
      StepEnds(states[n - 1], es[n - 1]);
    }
  }

  /** The application learns that the stream is cancelled: it cancels the stream itself, or calls Write or Close
      afterwards, or a Write that waits returns the error. */
  predicate Learns(s: State, e: Event)
    requires Allowed(s, e)
  {
    match e
    case CancelEvent(_) => !s.v.shutdown
    case WriteEvent(_, _, _) => s.v.cancelled
    case CloseEvent => s.v.cancelled && !s.v.shutdown && !s.v.finishedWriting
    case ResumeEvent(deadlineOver) =>
      s.v.cancelled && !s.v.shutdown && !deadlineOver && s.v.pending != [] && !CanBuffer(s.v)
    case _ => false
  }

  lemma StepLearns(s: State, e: Event)
    requires Inv(s) && Allowed(s, e) && NoPanic(s, e)
    ensures Next(s, e).flagged <==> s.flagged || Learns(s, e)
  {
    hide Inv, BeginWrite, WriteOnce, OnAcked, OnLost, PopStreamFrame, OnResetAcked, OnResetLost, CancelWrite,
         HandleStopSending, Close, CloseForShutdown, CanBuffer;
    match e {
      case PopEvent(maxBytes, window) => PopTeachesNothing(s, maxBytes, window);
      case WriteEvent(p, deadlineOver, deadlineOverNow) => WriteTeaches(s, p, deadlineOver, deadlineOverNow);
      case ResumeEvent(deadlineOver) => RoundTeaches(s, deadlineOver);
      case CancelEvent(_) => CallTeaches(s, e);
      case CloseEvent => CallTeaches(s, e);
      case _ => OthersTeachNothing(s, e);
    }
  }

  lemma PopTeachesNothing(s: State, maxBytes: nat, window: nat)
    requires Inv(s) && QueueFits(s) && s.streamId <= MAX_BYTE_COUNT
    requires s.v.writeOffset + window <= MAX_BYTE_COUNT && maxBytes <= MAX_PACKET_BUFFER_SIZE
    ensures PopStreamFrame(s, maxBytes, window).0.flagged == s.flagged
  {
    hide Inv, PopStreamFrame, QueueFits, Length, Unsent, Remains, RoomForByte, HasNew;
    PopsExactly(s, maxBytes, window);
  }

  lemma ReportTeachesNothing(s: State)
    ensures Report(s).flagged == s.flagged
  {
  }

  lemma RoundTeaches(s: State, deadlineOver: bool)
    requires s.writing.Some? && |s.v.pending| <= |s.v.written|
    ensures WriteOnce(s, deadlineOver).0.flagged <==> s.flagged || Learns(s, ResumeEvent(deadlineOver))
  {
    hide Report, Buffer, CanBuffer;
    ReportTeachesNothing(s.(writing := None, flagged := true));
  }

  lemma WriteTeaches(s: State, p: seq<byte>, deadlineOver: bool, deadlineOverNow: bool)
    requires s.writing.None?
    ensures BeginWrite(s, p, deadlineOver, deadlineOverNow).0.flagged <==> s.flagged || s.v.cancelled
  {
    hide Report, WriteOnce, CanBuffer;
    ReportTeachesNothing(s.(flagged := true));
    if !s.v.cancelled && !s.v.shutdown && !s.v.finishedWriting && !deadlineOver && p != [] {
      RoundTeaches(s.(v := s.v.(pending := p, written := s.v.written + p), writing := Some(|p|)), deadlineOverNow);
    }
  }

  lemma CallTeaches(s: State, e: Event)
    requires Allowed(s, e) && NoPanic(s, e) && (e.CancelEvent? || e.CloseEvent?)
    ensures Next(s, e).flagged <==> s.flagged || Learns(s, e)
  {
    hide Done, AllBelow, NextBelow;
  }

  lemma OthersTeachNothing(s: State, e: Event)
    requires Allowed(s, e) && NoPanic(s, e)
    requires || e.BoundaryEvent? || e.StopSendingEvent? || e.ControlEvent? || e.AckedEvent? || e.LostEvent?
             || e.ResetAckedEvent? || e.ResetLostEvent? || e.ShutdownEvent?
    ensures Next(s, e).flagged == s.flagged
  {
    hide Done, Lost, Without, WithoutReset, PopStreamFrame, BeginWrite, WriteOnce, CancelWrite, Close;
  }

  /** In every run, the application knows of a cancellation exactly if it has learnt of it. */
  lemma {:induction false} KnowsFollow(states: seq<State>, es: seq<Event>, n: nat)
    requires IsRun(states, es) && n <= |es|
    ensures states[n].flagged <==> exists i :: 0 <= i < n && Learns(states[i], es[i])
  {
    hide Inv, Next, NoPanic, Learns;
    if n > 0 {
      KnowsFollow(states, es, n - 1);
      RunInv(states, es, n - 1);
      StepLearns(states[n - 1], es[n - 1]);
    }
  }
}

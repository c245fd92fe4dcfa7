/** SetReliableBoundary after a cancellation: when the count of outstanding frames stays right. */
module SendBoundary {
  import opened Protocol
  import opened StreamFrames
  import opened SendLedger
  import opened SendSpec
  import opened SendRuns

  /** How many resets in flight announce the reliable size `r`. */
  ghost function Counted(resets: seq<ResetFrame>, r: nat): nat {
    if resets == [] then 0
    else Counted(resets[..|resets| - 1], r) + if resets[|resets| - 1].reliableSize == r then 1 else 0
  }

  /** The number of frames in flight whose acknowledgement or loss will be subtracted from the counter. */
  ghost function Outstanding(s: State): nat {
    (if s.v.cancelled && s.v.reliable == 0 then 0 else |s.v.inFlight|) + Counted(s.resets, s.v.reliable)
  }

  /** The event is an outcome that makes the counter negative, so that the original panics. */
  predicate Negative(s: State, e: Event)
    requires Allowed(s, e)
  {
    match e
    case AckedEvent(_) => !(s.v.cancelled && s.v.reliable == 0) && s.num < 1
    case LostEvent(_) => !(s.v.cancelled && s.v.reliable == 0) && s.num < 1
    case ResetAckedEvent(k) => s.resets[k].reliableSize == s.v.reliable && s.num < 1
    case ResetLostEvent(k) => s.resets[k].reliableSize == s.v.reliable && s.num < 1
    case _ => false
  }

  // ---- Counting resets. ----

  lemma {:induction false} CountedConcat(a: seq<ResetFrame>, b: seq<ResetFrame>, r: nat)
    ensures Counted(a + b, r) == Counted(a, r) + Counted(b, r)
    decreases |b|
  {
    if b == [] {
      assert a + b == a;
    } else {
      var n := |b| - 1;
      assert (a + b)[..|a + b| - 1] == a + b[..n];
      CountedConcat(a, b[..n], r);
    }
  }

  lemma CountedOne(f: ResetFrame, r: nat)
    ensures Counted([f], r) == if f.reliableSize == r then 1 else 0
  {
    assert [f][..0] == [];
  }

  lemma CountedWithout(resets: seq<ResetFrame>, k: nat, r: nat)
    requires k < |resets|
    ensures Counted(resets, r) == Counted(WithoutReset(resets, k), r) + if resets[k].reliableSize == r then 1 else 0
  {
    assert resets == resets[..k] + ([resets[k]] + resets[k + 1..]);
    CountedConcat(resets[..k], [resets[k]] + resets[k + 1..], r);
    CountedConcat([resets[k]], resets[k + 1..], r);
    CountedConcat(resets[..k], resets[k + 1..], r);
    CountedOne(resets[k], r);
  }

  lemma {:induction false} CountedNone(resets: seq<ResetFrame>, r: nat)
    ensures Counted(resets, r) == 0 <==> !ResetInFlight(resets, r)
  {
    if resets != [] {
      var n := |resets| - 1;
      CountedNone(resets[..n], r);
      if ResetInFlight(resets[..n], r) {
        var k :| 0 <= k < n && resets[..n][k].reliableSize == r;
        assert resets[k].reliableSize == r;
      }
      if ResetInFlight(resets, r) && resets[n].reliableSize != r {
        var k :| 0 <= k < |resets| && resets[k].reliableSize == r;
        assert resets[..n][k].reliableSize == r;
      }
    }
  }

  lemma {:induction false} CountedOnce(resets: seq<ResetFrame>, r: nat)
    requires forall i, j :: 0 <= i < j < |resets| ==> resets[i].reliableSize != r || resets[j].reliableSize != r
    ensures Counted(resets, r) <= 1
  {
    if resets != [] {
      var n := |resets| - 1;
      CountedOnce(resets[..n], r);
      CountedNone(resets[..n], r);
    }
  }

  /** As long as the invariant holds, the counter is right. */
  lemma InvCounts(s: State)
    requires Inv(s)
    ensures s.num == Outstanding(s)
  {
    hide Conserving;
    CountedOnce(s.resets, s.v.reliable);
    CountedNone(s.resets, s.v.reliable);
  }

  // ---- What a late call does. ----

  /** Where the boundary is set. */
  function Boundary(s: State): nat {
    SetReliableBoundary(s).v.reliable
  }

  /** Some run, in which the boundary is not set again after a cancellation, ends with a wrong counter. */
  ghost predicate CanMiscount(s: State) {
    exists states: seq<State>, es: seq<Event> ::
      Steps(states, es) && states[0] == s && states[|es|].num != Outstanding(states[|es|])
  }

  /** The counter of a stream that was not reported as completed is too large, so that it will not be. */
  ghost predicate Stalled(s: State) {
    s.v.cancelled && s.num > Outstanding(s) && !s.completed
  }

  /** Some run leads to such a state. */
  ghost predicate CanStall(s: State) {
    exists states: seq<State>, es: seq<Event> :: Steps(states, es) && states[0] == s && Stalled(states[|es|])
  }

  /** Some run leads to a counter that is too large. */
  ghost predicate CanOvercount(s: State) {
    exists states: seq<State>, es: seq<Event> ::
      Steps(states, es) && states[0] == s && states[|es|].num > Outstanding(states[|es|])
  }

  /** The boundary may be set: the stream is not cancelled, or the boundary does not move, or no reset is queued and
      nothing is in flight that is counted differently afterwards. After a shutdown, no STOP_SENDING can follow. */
  ghost predicate KeepsCount(s: State) {
    var r := Boundary(s);
    || !s.v.cancelled || r == s.v.reliable
    || (&& s.queued == None
        && if s.v.reliable > 0 then (if r > 0 then s.resets == [] else s.num == 0)
           else if s.v.shutdown then |s.v.inFlight| + Counted(s.resets, r) == Counted(s.resets, 0)
           else s.v.inFlight == [] && Counted(s.resets, 0) == Counted(s.resets, r) == 0)
  }

  /** The counter is right, and will be. */
  ghost predicate Counting(s: State) {
    && s.num == Outstanding(s) && s.v.cancelled
    && (s.queued.Some? ==> s.queued.value.reliableSize == s.v.reliable)
    && (s.v.reliable > 0 && !s.v.shutdown ==> Counted(s.resets, 0) == 0)
  }

  lemma CountingNotNegative(s: State, e: Event)
    requires s.num == Outstanding(s) && Allowed(s, e)
    ensures !Negative(s, e)
  {
    match e {
      case ResetAckedEvent(k) => CountedWithout(s.resets, k, s.v.reliable);
      case ResetLostEvent(k) => CountedWithout(s.resets, k, s.v.reliable);
      case _ =>
    }
  }

  lemma PopCounting(s: State, e: Event)
    requires e.PopEvent? && Allowed(s, e) && NoPanic(s, e) && s.v.cancelled
    ensures var s' := Next(s, e);
            && s'.resets == s.resets && s'.queued == s.queued && s'.v.cancelled && s'.v.reliable == s.v.reliable
            && s'.v.shutdown == s.v.shutdown && s'.completed == s.completed
            && s'.num - |s'.v.inFlight| == s.num - |s.v.inFlight|
            && (s.v.reliable == 0 ==> s' == s)
  {
    hide MaxDataLen, QueueFits, NewView, PopRetransmission;
    PopKeepsFlags(s, e.maxBytes, e.window);
    var v, r := s.v, s.v.reliable;
    if v.queue != [] {
      HeadFits(s);
      RetransmissionCounts(s, e.maxBytes);
    } else if v.pending != [] || v.next.Some? {
      NewCounts(v, Min(if v.cancelled && r >= v.writeOffset then Min(e.window, r - v.writeOffset) else e.window,
                       MaxDataLen(s.streamId, v.writeOffset, e.maxBytes)));
    }
  }

  lemma RetransmissionCounts(s: State, maxBytes: nat)
    requires s.streamId <= MAX_BYTE_COUNT && maxBytes <= MAX_PACKET_BUFFER_SIZE
    requires s.v.queue != [] && s.v.queue[0].End() <= MAX_BYTE_COUNT && |s.v.queue[0].data| <= MAX_PACKET_BUFFER_SIZE
    ensures var s' := PopRetransmission(s, maxBytes).0;
            && s'.num - |s'.v.inFlight| == s.num - |s.v.inFlight| && s'.resets == s.resets && s'.queued == s.queued
  {
    hide MaxDataLen, Length, Prefix, Rest;
    var f := s.v.queue[0];
    if maxBytes < Length(s.streamId, f) {
      SplitLeavesRest(s.streamId, f, maxBytes);
    }
  }

  lemma NewCounts(v: View, maxData: nat)
    ensures |NewView(v, maxData).inFlight| == |v.inFlight| + 1
  {
  }

  lemma LostOne(v: View, k: nat)
    requires k < |v.inFlight|
    ensures |Lost(v, k).inFlight| == |v.inFlight| - 1
  {
  }

  /** A reset is sent that does not announce the current reliable size. */
  predicate Outdated(s: State, e: Event) {
    e.ControlEvent? && s.queued.Some? && s.queued.value.reliableSize != s.v.reliable
  }

  /** The stream stays cancelled with its reliable size, and the counter is off by `d` more than before. */
  ghost predicate Shifted(s: State, s': State, d: int) {
    && s'.v.cancelled && s'.v.reliable == s.v.reliable && (s.v.shutdown ==> s'.v.shutdown)
    && s'.num - Outstanding(s') == s.num - Outstanding(s) + d
  }

  /** Of the steps of a cancelled stream other than STOP_SENDING, only sending a reset with an outdated size changes how
      far the counter is off. */
  lemma DifferenceKept(s: State, e: Event)
    requires s.v.cancelled && Allowed(s, e) && NoPanic(s, e) && !e.StopSendingEvent?
    ensures Shifted(s, Next(s, e), if Outdated(s, e) then 1 else 0)
  {
    hide PopStreamFrame, QueueFits, CancelWrite, WriteOnce, OnAcked, OnLost, OnResetAcked, OnResetLost, Close,
         GetControlFrame, BeginWrite, Shifted, CloseForShutdown;
    match e {
      case PopEvent(_, _) => PopShift(s, e);
      case AckedEvent(k) => AckedShift(s, k);
      case LostEvent(k) => LostShift(s, k);
      case ResetAckedEvent(k) => ResetAckedShift(s, k);
      case ResetLostEvent(k) => ResetLostShift(s, k);
      case ControlEvent => ControlShift(s);
      case _ => OtherShift(s, e);
    }
  }

  lemma OtherShift(s: State, e: Event)
    requires s.v.cancelled && Allowed(s, e) && NoPanic(s, e)
    requires e.WriteEvent? || e.ResumeEvent? || e.CloseEvent? || e.ShutdownEvent? || e.CancelEvent?
    ensures Shifted(s, Next(s, e), 0) && Next(s, e).resets == s.resets && Next(s, e).queued == s.queued
    ensures Next(s, e).completed && !s.completed ==> Next(s, e).num <= 0
  {
    hide Counted, WriteOnce, CloseForShutdown;
    match e {
      case ResumeEvent(deadlineOver) => ResumeSame(s, deadlineOver);
      case ShutdownEvent => ShutdownSame(s);
      case _ =>
    }
  }

  lemma ShutdownSame(s: State)
    ensures var s' := CloseForShutdown(s);
            && s'.num == s.num && s'.resets == s.resets && s'.queued == s.queued && s'.v.inFlight == s.v.inFlight
            && s'.v.cancelled == s.v.cancelled && s'.v.reliable == s.v.reliable && (s.v.shutdown ==> s'.v.shutdown)
            && s'.completed == s.completed
  {
  }

  lemma ResumeSame(s: State, deadlineOver: bool)
    requires s.writing.Some? && |s.v.pending| <= |s.v.written|
    ensures var s' := WriteOnce(s, deadlineOver).0;
            && s'.num == s.num && s'.resets == s.resets && s'.queued == s.queued && s'.v.inFlight == s.v.inFlight
            && s'.v.cancelled == s.v.cancelled && s'.v.reliable == s.v.reliable && s'.v.shutdown == s.v.shutdown
            && (s'.completed && !s.completed ==> s'.num <= 0)
  {
    hide Buffer, StopOrWait;
    StopSame(s, deadlineOver);
  }

  lemma StopSame(s: State, deadlineOver: bool)
    requires s.writing.Some? && |s.v.pending| <= |s.v.written|
    ensures var s' := StopOrWait(s, deadlineOver).0;
            && s'.num == s.num && s'.resets == s.resets && s'.queued == s.queued && s'.v.inFlight == s.v.inFlight
            && s'.v.cancelled == s.v.cancelled && s'.v.reliable == s.v.reliable && s'.v.shutdown == s.v.shutdown
            && (s'.completed && !s.completed ==> s'.num <= 0)
  {
  }

  lemma PopShift(s: State, e: Event)
    requires s.v.cancelled && e.PopEvent? && Allowed(s, e) && NoPanic(s, e)
    ensures Shifted(s, Next(s, e), 0) && Next(s, e).completed == s.completed
  {
    hide PopStreamFrame, QueueFits, Counted;
    PopCounting(s, e);
  }

  lemma AckedShift(s: State, k: nat)
    requires s.v.cancelled && k < |s.v.inFlight|
    ensures Shifted(s, OnAcked(s, k), 0) && (OnAcked(s, k).completed && !s.completed ==> OnAcked(s, k).num <= 0)
  {
    hide Without, Counted;
    OneLess(s.v.inFlight, k);
  }

  lemma LostShift(s: State, k: nat)
    requires s.v.cancelled && k < |s.v.inFlight|
    ensures Shifted(s, OnLost(s, k), 0) && (OnLost(s, k).completed && !s.completed ==> OnLost(s, k).num <= 0)
  {
    hide Lost, Counted;
    LostOne(s.v, k);
    LostKeepsNext(s.v, k);
  }

  lemma ResetAckedShift(s: State, k: nat)
    requires s.v.cancelled && k < |s.resets|
    ensures Shifted(s, OnResetAcked(s, k), 0)
    ensures OnResetAcked(s, k).completed && !s.completed ==> OnResetAcked(s, k).num <= 0
  {
    hide WithoutReset, Counted;
    CountedWithout(s.resets, k, s.v.reliable);
  }

  lemma ResetLostShift(s: State, k: nat)
    requires s.v.cancelled && k < |s.resets|
    ensures Shifted(s, OnResetLost(s, k), 0) && OnResetLost(s, k).completed == s.completed
  {
    hide WithoutReset, Counted;
    CountedWithout(s.resets, k, s.v.reliable);
  }

  lemma ControlShift(s: State)
    requires s.v.cancelled
    ensures Shifted(s, GetControlFrame(s).0, if Outdated(s, ControlEvent) then 1 else 0)
    ensures GetControlFrame(s).0.completed == s.completed
  {
    hide Counted;
    if s.queued.Some? {
      CountedConcat(s.resets, [s.queued.value], s.v.reliable);
      CountedOne(s.queued.value, s.v.reliable);
    }
  }

  // ---- The counter is right for good. ----

  /** The resets queued and in flight do not come to disagree with the reliable size. */
  lemma ResetsKept(s: State, e: Event)
    requires Counting(s) && Allowed(s, e) && NoPanic(s, e) && !e.StopSendingEvent?
    ensures var s' := Next(s, e);
            && (s'.queued.Some? ==> s'.queued.value.reliableSize == s.v.reliable)
            && (s.v.reliable > 0 ==> Counted(s'.resets, 0) <= Counted(s.resets, 0))
  {
    hide PopStreamFrame, QueueFits, CancelWrite, WriteOnce, Close, BeginWrite, CloseForShutdown, Counted, Shifted,
         Outstanding, Done, Lost, WithoutReset, Without;
    match e {
      case PopEvent(_, _) => PopCounting(s, e);
      case AckedEvent(k) =>
      case LostEvent(k) =>
      case ResetAckedEvent(k) => CountedWithout(s.resets, k, 0);
      case ResetLostEvent(k) => CountedWithout(s.resets, k, 0);
      case ControlEvent =>
        if s.queued.Some? {
          CountedConcat(s.resets, [s.queued.value], 0);
          CountedOne(s.queued.value, 0);
        }
      case _ => OtherShift(s, e);
    }
  }

  lemma CountingForever(s: State, e: Event)
    requires Counting(s) && Allowed(s, e) && NoPanic(s, e)
    ensures Counting(Next(s, e))
  {
    hide Counted, Next, Allowed, NoPanic;
    if e.StopSendingEvent? {
      CountingStops(s, e);
    } else {
      DifferenceKept(s, e);
      ResetsKept(s, e);
    }
  }

  lemma CountingStops(s: State, e: Event)
    requires Counting(s) && e.StopSendingEvent?
    ensures Counting(Next(s, e))
  {
  }

  lemma {:induction false} StepsCounting(states: seq<State>, es: seq<Event>, i: nat)
    requires Steps(states, es) && Counting(states[0]) && i <= |es|
    ensures Counting(states[i])
  {
    hide Counting, Next, NoPanic, Allowed;
    if i > 0 {
      StepsCounting(states, es, i - 1);
      CountingForever(states[i - 1], es[i - 1]);
    }
  }

  lemma {:induction false} StepsInv(states: seq<State>, es: seq<Event>, i: nat)
    requires Steps(states, es) && Inv(states[0]) && i <= |es|
    ensures Inv(states[i])
  {
    hide Inv, Next, NoPanic, Allowed;
    if i > 0 {
      StepsInv(states, es, i - 1);
      StepInv(states[i - 1], es[i - 1]);
    }
  }

  // ---- The counter is too small or too large. ----

  /** Some run ends with an outcome that makes the counter negative. */
  ghost predicate CanPanic(s: State) {
    exists states: seq<State>, es: seq<Event>, e: Event ::
      Steps(states, es) && states[0] == s && Allowed(states[|es|], e) && Negative(states[|es|], e)
  }

  /** A counter that is too small becomes negative when what is in flight is acknowledged. */
  lemma {:induction false} TooSmall(s: State)
    requires s.v.cancelled && 0 <= s.num < Outstanding(s)
    ensures CanPanic(s)
    decreases s.num
  {
    hide Counted, Outstanding, Steps, OnAcked, OnResetAcked, Shifted;
    var e := CountedOutcome(s);
    if s.num == 0 {
      PanicsNow(s, e);
    } else {
      var s' := Next(s, e);
      AcksOne(s, e);
      TooSmall(s');
      PanicsLater(s, e, s');
    }
  }

  /** An acknowledgement that counts. */
  lemma CountedOutcome(s: State) returns (e: Event)
    requires Outstanding(s) > 0
    ensures (e.AckedEvent? && !(s.v.cancelled && s.v.reliable == 0))
            || (e.ResetAckedEvent? && Allowed(s, e) && s.resets[e.k].reliableSize == s.v.reliable)
    ensures Allowed(s, e) && (s.num >= 1 ==> NoPanic(s, e)) && (s.num < 1 ==> Negative(s, e))
  {
    if !(s.v.cancelled && s.v.reliable == 0) && s.v.inFlight != [] {
      e := AckedEvent(0);
    } else {
      CountedNone(s.resets, s.v.reliable);
      var k :| 0 <= k < |s.resets| && s.resets[k].reliableSize == s.v.reliable;
      e := ResetAckedEvent(k);
    }
  }

  lemma AcksOne(s: State, e: Event)
    requires s.v.cancelled && Allowed(s, e) && NoPanic(s, e) && s.num >= 1 && s.num < Outstanding(s)
    requires (e.AckedEvent? && !(s.v.cancelled && s.v.reliable == 0))
             || (e.ResetAckedEvent? && s.resets[e.k].reliableSize == s.v.reliable)
    ensures var s' := Next(s, e); s'.v.cancelled && s'.num == s.num - 1 && s'.num < Outstanding(s')
  {
    hide Outstanding, Done, Without, WithoutReset;
    if e.AckedEvent? {
      AckedShift(s, e.k);
    } else {
      ResetAckedShift(s, e.k);
    }
  }

  lemma PanicsNow(s: State, e: Event)
    requires Allowed(s, e) && Negative(s, e)
    ensures CanPanic(s)
  {
    var states, es: seq<Event> := [s], [];
    assert Steps(states, es) && states[|es|] == s;
  }

  lemma PanicsLater(s: State, e: Event, s': State)
    requires Allowed(s, e) && NoPanic(s, e) && s' == Next(s, e) && CanPanic(s')
    ensures CanPanic(s)
  {
    hide Next, NoPanic, Negative, Allowed;
    var states: seq<State>, es: seq<Event>, last: Event :|
      Steps(states, es) && states[0] == s' && Allowed(states[|es|], last) && Negative(states[|es|], last);
    StepsBefore(s, e, states, es);
    assert ([s] + states)[|[e] + es|] == states[|es|];
  }

  lemma StepsBefore(s: State, e: Event, states: seq<State>, es: seq<Event>)
    requires Steps(states, es) && Allowed(s, e) && NoPanic(s, e) && states[0] == Next(s, e)
    ensures Steps([s] + states, [e] + es)
  {
    hide Next, NoPanic, Allowed;
    var states', es' := [s] + states, [e] + es;
    forall i | 0 <= i < |es'|
      ensures Allowed(states'[i], es'[i]) && NoPanic(states'[i], es'[i]) && states'[i + 1] == Next(states'[i], es'[i])
    {
      if i > 0 {
        assert states'[i] == states[i - 1] && es'[i] == es[i - 1] && states'[i + 1] == states[i];
      }
    }
  }

  /** A counter that is too large keeps the stream from being reported as completed, unless STOP_SENDING arrives. */
  lemma TooLarge(s: State, e: Event)
    requires Stalled(s) && Allowed(s, e) && NoPanic(s, e) && !e.StopSendingEvent?
    ensures Stalled(Next(s, e))
  {
    hide PopStreamFrame, QueueFits, CancelWrite, WriteOnce, OnAcked, OnLost, OnResetAcked, OnResetLost, Close,
         GetControlFrame, BeginWrite, CloseForShutdown, Outstanding;
    DifferenceKept(s, e);
    match e {
      case PopEvent(_, _) => PopShift(s, e);
      case AckedEvent(k) => AckedShift(s, k);
      case LostEvent(k) => LostShift(s, k);
      case ResetAckedEvent(k) => ResetAckedShift(s, k);
      case ResetLostEvent(k) => ResetLostShift(s, k);
      case ControlEvent => ControlShift(s);
      case _ => OtherShift(s, e);
    }
  }

  /** Whatever happens, except STOP_SENDING, a stalled stream is never reported as completed. */
  lemma {:induction false} StalledForever(states: seq<State>, es: seq<Event>)
    requires Steps(states, es) && Stalled(states[0]) && forall i :: 0 <= i < |es| ==> !es[i].StopSendingEvent?
    ensures Stalled(states[|es|]) && !states[|es|].completed
    decreases |es|
  {
    hide Next, NoPanic, Allowed, Outstanding;
    if es != [] {
      var n := |es| - 1;
      StalledForever(states[..n + 1], es[..n]);
      TooLarge(states[n], es[n]);
    }
  }

  // ---- The exact condition. ----

  lemma FailsNow(s: State)
    requires s.v.cancelled && 0 <= s.num != Outstanding(s)
    ensures CanPanic(s) || (CanOvercount(s) && (!s.completed ==> CanStall(s)))
  {
    hide Outstanding, CanPanic;
    if s.num < Outstanding(s) {
      TooSmall(s);
    } else {
      var states, es: seq<Event> := [s], [];
      assert Steps(states, es) && states[|es|] == s;
    }
  }

  lemma FailsNext(s: State, e: Event)
    requires Allowed(s, e) && NoPanic(s, e)
    requires Next(s, e).v.cancelled && 0 <= Next(s, e).num != Outstanding(Next(s, e))
    ensures CanPanic(s) || (CanOvercount(s) && (!Next(s, e).completed ==> CanStall(s)))
  {
    hide Outstanding, Next, CanPanic, Allowed, NoPanic;
    var s' := Next(s, e);
    if s'.num < Outstanding(s') {
      TooSmall(s');
      PanicsLater(s, e, s');
    } else {
      var states, es := [s, s'], [e];
      assert Steps(states, es) && states[|es|] == s';
    }
  }

  /** What a late call that moves the boundary finds. */
  lemma LateCall(s: State)
    requires Inv(s) && s.v.cancelled
    ensures s.v.reliable == 0 ==> s.num == Counted(s.resets, 0)
    ensures s.v.reliable > 0 ==>
              && s.num == |s.v.inFlight| + Counted(s.resets, s.v.reliable)
              && Counted(s.resets, s.v.reliable) == |s.resets| <= 1
    ensures s.v.reliable > 0 ==> forall r: nat :: r != s.v.reliable ==> Counted(s.resets, r) == 0
    ensures s.queued.Some? ==> s.queued.value.reliableSize == s.v.reliable
    ensures s.v.reliable > 0 && Boundary(s) == 0 ==> s.v.shutdown
  {
    hide Conserving, Counted;
    InvCounts(s);
    if s.v.reliable > 0 {
      OneReset(s.resets, s.v.reliable);
      forall r: nat | r != s.v.reliable
        ensures Counted(s.resets, r) == 0
      {
        CountedNone(s.resets, r);
      }
      if !s.v.shutdown {
        BoundaryGrows(s);
      }
    }
  }

  lemma OneReset(resets: seq<ResetFrame>, r: nat)
    requires forall k :: 0 <= k < |resets| ==> resets[k].reliableSize == r
    requires forall i, j :: 0 <= i < j < |resets| ==> resets[i].reliableSize != r || resets[j].reliableSize != r
    ensures Counted(resets, r) == |resets| <= 1
  {
    CountedAll(resets, r);
    CountedOnce(resets, r);
  }

  lemma {:induction false} CountedAll(resets: seq<ResetFrame>, r: nat)
    requires forall k :: 0 <= k < |resets| ==> resets[k].reliableSize == r
    ensures Counted(resets, r) == |resets|
  {
    if resets != [] {
      CountedAll(resets[..|resets| - 1], r);
    }
  }

  lemma BoundaryGrows(s: State)
    requires Inv(s) && s.v.cancelled && !s.v.shutdown
    ensures Boundary(s) >= s.v.reliable
  {
  }

  lemma HarmlessCall(s: State)
    requires Inv(s) && (!s.v.cancelled || Boundary(s) == s.v.reliable)
    ensures !CanMiscount(SetReliableBoundary(s))
  {
    hide Inv, Outstanding, Next, NoPanic, Allowed;
    var s' := SetReliableBoundary(s);
    if !s.v.cancelled {
      SetReliableBoundaryInv(s);
    } else {
      assert s' == s;
    }
    forall states: seq<State>, es: seq<Event> | Steps(states, es) && states[0] == s'
      ensures states[|es|].num == Outstanding(states[|es|])
    {
      StepsInv(states, es, |es|);
      InvCounts(states[|es|]);
    }
  }

  lemma KeepsCounting(s: State)
    requires Inv(s) && s.v.cancelled && Boundary(s) != s.v.reliable && KeepsCount(s)
    ensures !CanMiscount(SetReliableBoundary(s))
  {
    hide Inv, Counted, Next, NoPanic, Allowed;
    LateCall(s);
    var s' := SetReliableBoundary(s);
    assert Counting(s');
    forall states: seq<State>, es: seq<Event> | Steps(states, es) && states[0] == s'
      ensures states[|es|].num == Outstanding(states[|es|])
    {
      StepsCounting(states, es, |es|);
    }
  }

  lemma Miscounts(s: State)
    requires Inv(s) && s.v.cancelled && Boundary(s) != s.v.reliable && !KeepsCount(s)
    ensures var s' := SetReliableBoundary(s); CanPanic(s') || (CanOvercount(s') && (!s.completed ==> CanStall(s')))
  {
    hide Inv, Counted, CanPanic, CanOvercount, CanStall;
    LateCall(s);
    var s' := SetReliableBoundary(s);
    if s'.num != Outstanding(s') {
      FailsNow(s');
    } else if s.queued.Some? {
      ControlShift(s');
      FailsNext(s', ControlEvent);
    } else {
      FailsNext(s', StopSendingEvent(0));
    }
  }

  lemma FailureMiscounts(s: State)
    requires CanPanic(s) || CanOvercount(s) || CanStall(s)
    ensures CanMiscount(s)
  {
    hide Outstanding, Next, NoPanic, Allowed, Negative;
    if CanPanic(s) {
      var states: seq<State>, es: seq<Event>, e: Event :|
        Steps(states, es) && states[0] == s && Allowed(states[|es|], e) && Negative(states[|es|], e);
      if states[|es|].num == Outstanding(states[|es|]) {
        CountingNotNegative(states[|es|], e);
      }
    }
  }

  /** After the boundary was set, the counter is right in every run if and only if this condition held when it was set.
      Otherwise some run panics or counts too much, and a stream that was not reported as completed is then stalled. */
  lemma BoundaryExactly(s: State)
    requires Inv(s)
    ensures var s' := SetReliableBoundary(s);
            && (KeepsCount(s) <==> !CanMiscount(s'))
            && (KeepsCount(s) <==> !CanPanic(s') && !CanOvercount(s'))
            && (!s.completed ==> (KeepsCount(s) <==> !CanPanic(s') && !CanStall(s')))
  {
    hide Inv, Counted, Outstanding, CanMiscount, CanPanic, CanOvercount, CanStall;
    var s' := SetReliableBoundary(s);
    if !s.v.cancelled || Boundary(s) == s.v.reliable {
      HarmlessCall(s);
    } else if KeepsCount(s) {
      KeepsCounting(s);
    } else {
      Miscounts(s);
    }
    if CanPanic(s') || CanOvercount(s') || CanStall(s') {
      FailureMiscounts(s');
    }
  }
}

/** Runs of a send stream in which it does not complete, or would panic. */
module SendCases {
  import opened Protocol
  import opened StreamFrames
  import opened SendLedger
  import opened SendSpec
  import opened SendRuns
  import opened SendBoundary

  function Start(supportsResetStreamAt: bool): State {
    Fresh(0, supportsResetStreamAt)
  }

  /** The first Write fills the buffer. */
  lemma FirstWrite(supports: bool, p: seq<byte>)
    requires 0 < |p| <= MAX_PACKET_BUFFER_SIZE
    ensures var s := Start(supports);
            BeginWrite(s, p, false, false).0 == s.(v := s.v.(next := Some(StreamFrame(0, p, false)), written := p))
  {
    assert [] + p == p;
  }

  /** The second one waits. */
  lemma SecondWrite(s: State, q: seq<byte>)
    requires s.writing.None? && !s.v.cancelled && !s.v.shutdown && !s.v.finishedWriting && q != []
    requires |Buffered(s.v.next)| + |q| > MAX_PACKET_BUFFER_SIZE
    ensures BeginWrite(s, q, false, false).0 ==
            s.(v := s.v.(pending := q, written := s.v.written + q), writing := Some(|q|))
  {
  }

  /** Cancelled by the application or by the peer while a Write is blocked: the Write fills the buffer again, and the
      stream is stuck. */
  lemma CancelDuringWrite(p: seq<byte>, e: Event) returns (states: seq<State>, es: seq<Event>)
    requires |p| <= MAX_PACKET_BUFFER_SIZE < 2 * |p| && IsCancel(e)
    ensures es == [WriteEvent(p, false, false), WriteEvent(p, false, false), e, ResumeEvent(false)]
    ensures IsRun(states, es) && Stuck(states[4])
  {
    hide BeginWrite, Stuck, Excess, WriteOnce, Inv;
    var write, resume := WriteEvent(p, false, false), ResumeEvent(false);
    var s0 := Start(false);
    FreshInv(0, false);
    FirstWrite(false, p);
    var s1 := Next(s0, write);
    StepInv(s0, write);
    SecondWrite(s1, p);
    var s2 := Next(s1, write);
    StepInv(s1, write);
    NotCompletedYet(s2);
    CancelTames(s2, e);
    var s3 := Next(s2, e);
    StepInv(s2, e);
    CancelledUnreliable(s2, e);
    RefillsNow(s3);
    var s4 := Next(s3, resume);
    states, es := [s0, s1, s2, s3, s4], [write, write, e, resume];
  }

  lemma CancelledUnreliable(s: State, e: Event)
    requires IsCancel(e) && s.v.reliable == 0
    ensures Next(s, e).v.reliable == 0
  {
    hide AllBelow, Done;
  }

  /** The same with reliable data: part of it was sent, so that there is room for the Write that is blocked. */
  lemma CancelReliable(p: seq<byte>, q: seq<byte>) returns (states: seq<State>, es: seq<Event>)
    requires |p| >= 2 && q != [] && |p| + |q| == MAX_PACKET_BUFFER_SIZE + 1
    ensures es == [WriteEvent(p, false, false), BoundaryEvent, WriteEvent(q, false, false), PopEvent(100, 1),
                   CancelEvent(7), ResumeEvent(false)]
    ensures IsRun(states, es) && Stuck(states[6]) && states[6].v.reliable == |p|
  {
    hide BeginWrite, Stuck, WriteOnce, Inv, PopStreamFrame, CancelWrite, QueueFits;
    var write1, write2 := WriteEvent(p, false, false), WriteEvent(q, false, false);
    var pop, cancel, resume := PopEvent(100, 1), CancelEvent(7), ResumeEvent(false);
    var s0 := Start(true);
    FreshInv(0, true);
    FirstWrite(true, p);
    var s1 := Next(s0, write1);
    StepInv(s0, write1);
    var s2 := Next(s1, BoundaryEvent);
    StepInv(s1, BoundaryEvent);
    SecondWrite(s2, q);
    var s3 := Next(s2, write2);
    StepInv(s2, write2);
    NotCompletedYet(s3);
    PopsOneByte(s3);
    var s4 := Next(s3, pop);
    StepInv(s3, pop);
    CancelsReliable(s4);
    var s5 := Next(s4, cancel);
    StepInv(s4, cancel);
    Refilled(s5);
    var s6 := Next(s5, resume);
    states, es := [s0, s1, s2, s3, s4, s5, s6], [write1, BoundaryEvent, write2, pop, cancel, resume];
  }

  lemma PopsOneByte(s: State)
    requires !s.v.cancelled && !s.v.shutdown && s.v.queue == [] && s.v.next.Some? && |s.v.next.value.data| >= 2
    requires s.streamId == 0 && s.v.writeOffset == 0 && s.v.pending != []
    ensures QueueFits(s)
    ensures var s' := PopStreamFrame(s, 100, 1).0;
            && s'.completed == s.completed && s'.writing == s.writing
            && s'.v == s.v.(writeOffset := 1, sent := s.v.sent + s.v.next.value.data[..1],
                            next := Some(StreamFrame(1, s.v.next.value.data[1..], false)),
                            inFlight := s.v.inFlight + [StreamFrame(0, s.v.next.value.data[..1], false)])
  {
    assert MaxDataLen(0, 0, 100) > 1;
  }

  lemma CancelsReliable(s: State)
    requires !s.v.cancelled && !s.v.shutdown && s.v.next.Some? && 0 < s.v.reliable == s.v.next.value.End()
    requires s.v.next.value.data != []
    ensures var s' := CancelWrite(s, 7);
            && s'.v.cancelled && !s'.v.shutdown && s'.v.next == s.v.next && s'.v.reliable == s.v.reliable
            && s'.v.pending == s.v.pending
            && s'.v.written == s.v.written && s'.writing == s.writing && s'.completed == s.completed
  {
    hide AllBelow;
  }

  lemma Refilled(s: State)
    requires s.writing.Some? && 0 < |s.v.pending| <= |s.v.written| && s.v.cancelled && !s.v.shutdown && !s.completed
    requires s.v.next.Some? && s.v.next.value.End() == s.v.reliable
    requires |s.v.next.value.data| + |s.v.pending| <= MAX_PACKET_BUFFER_SIZE
    ensures Stuck(WriteOnce(s, false).0) && WriteOnce(s, false).0.v.reliable == s.v.reliable
  {
  }

  ghost predicate StepTo(s: State, e: Event, s': State) {
    Allowed(s, e) && NoPanic(s, e) && s' == Next(s, e)
  }

  /** One byte is written and sent. */
  lemma SendsOneByte() returns (s1: State, s2: State)
    ensures StepTo(Start(true), WriteEvent([1], false, false), s1) && StepTo(s1, PopEvent(100, 100), s2) && Inv(s2)
    ensures s2.supportsResetStreamAt && s2.num == 1 && !s2.v.cancelled && !s2.v.shutdown && s2.v.reliable == 0
    ensures s2.v.writeOffset == 1 && |s2.v.inFlight| == 1 && s2.v.next == None && !s2.v.finSent && s2.resets == []
    ensures !s2.completed
  {
    hide Inv, QueueFits, BeginWrite, PopStreamFrame;
    FreshInv(0, true);
    FirstWrite(true, [1]);
    s1 := Next(Start(true), WriteEvent([1], false, false));
    StepInv(Start(true), WriteEvent([1], false, false));
    PopsTheByte(s1);
    s2 := Next(s1, PopEvent(100, 100));
    StepInv(s1, PopEvent(100, 100));
  }

  /** A reliable boundary set after a cancellation miscounts: here the only frame in flight was given up, but its
      acknowledgement would be counted again, and the counter would become negative. */
  lemma BoundaryAfterCancel() returns (states: seq<State>, es: seq<Event>)
    ensures es == [WriteEvent([1], false, false), PopEvent(100, 100), CancelEvent(7)]
    ensures IsRun(states, es) && !KeepsCount(states[3])
    ensures var s := SetReliableBoundary(states[3]); Allowed(s, AckedEvent(0)) && Negative(s, AckedEvent(0))
  {
    hide Inv, CancelWrite, KeepsCount, StepTo;
    var s1, s2 := SendsOneByte();
    CancelsByte(s2);
    var s3 := CancelWrite(s2, 7);
    states, es := [Start(true), s1, s2, s3], [WriteEvent([1], false, false), PopEvent(100, 100), CancelEvent(7)];
    forall i | 0 <= i < |es|
      ensures StepTo(states[i], es[i], states[i + 1])
    {
    }
    StepsAreRun(states, es);
    QueuedSpoils(s3);
  }

  lemma StepsAreRun(states: seq<State>, es: seq<Event>)
    requires |states| == |es| + 1 && states[0] == Start(true)
    requires forall i :: 0 <= i < |es| ==> StepTo(states[i], es[i], states[i + 1])
    ensures IsRun(states, es)
  {
    hide Next, NoPanic, Allowed;
    var id: nat, supports := 0, true;
    assert id <= MAX_BYTE_COUNT && states[0] == Fresh(id, supports);
    forall i | 0 <= i < |es|
      ensures Allowed(states[i], es[i]) && (NoPanic(states[i], es[i]) ==> states[i + 1] == Next(states[i], es[i]))
    {
      assert StepTo(states[i], es[i], states[i + 1]);
    }
  }

  /** A reset that is queued announces the old boundary. */
  lemma QueuedSpoils(s: State)
    requires s.v.cancelled && s.queued.Some? && Boundary(s) != s.v.reliable
    ensures !KeepsCount(s)
  {
  }

  lemma PopsTheByte(s: State)
    requires s == Start(true).(v := Start(true).v.(next := Some(StreamFrame(0, [1], false)), written := [1]))
    ensures QueueFits(s)
    ensures var s' := PopStreamFrame(s, 100, 100).0;
            && s'.supportsResetStreamAt && s'.num == 1 && !s'.v.cancelled && !s'.v.shutdown && s'.v.reliable == 0
            && s'.v.writeOffset == 1 && |s'.v.inFlight| == 1 && s'.v.next == None
            && !s'.v.finSent && s'.resets == [] && !s'.completed
  {
    assert MaxDataLen(0, 0, 100) >= 1;
  }

  /** The stream is cancelled after one byte was sent. */
  lemma CancelsByte(s: State)
    requires s.supportsResetStreamAt && !s.v.cancelled && !s.v.shutdown && s.v.reliable == 0 && s.v.writeOffset == 1
    requires s.resets == []
    ensures var s' := CancelWrite(s, 7);
            && StepTo(s, CancelEvent(7), s')
            && s'.supportsResetStreamAt && s'.v.cancelled && s'.num == 0 && s'.v.reliable == 0 && s'.v.writeOffset == 1
            && s'.v.next == None
            && s'.v.inFlight == s.v.inFlight && s'.resets == [] && s'.completed == s.completed
            && s'.queued.Some? && s'.queued.value.reliableSize == 0
  {
    hide AllBelow;
  }

  /** A reliable boundary set after a cancellation can also keep the stream from completing: here everything was
      acknowledged, but the reset that is queued does not announce the new boundary, and is counted when it is sent but
      not when it is acknowledged. */
  lemma BoundaryBeforeReset() returns (states: seq<State>, es: seq<Event>)
    ensures es == [WriteEvent([1], false, false), PopEvent(100, 100), AckedEvent(0), CancelEvent(7)]
    ensures IsRun(states, es) && !KeepsCount(states[4])
    ensures Stalled(Next(SetReliableBoundary(states[4]), ControlEvent))
  {
    hide Inv, CancelWrite, OnAcked, KeepsCount, StepTo;
    var s1, s2 := SendsOneByte();
    AcksTheByte(s2);
    var s3 := OnAcked(s2, 0);
    CancelsByte(s3);
    var s4 := CancelWrite(s3, 7);
    states := [Start(true), s1, s2, s3, s4];
    es := [WriteEvent([1], false, false), PopEvent(100, 100), AckedEvent(0), CancelEvent(7)];
    forall i | 0 <= i < |es|
      ensures StepTo(states[i], es[i], states[i + 1])
    {
    }
    StepsAreRun(states, es);
    QueuedSpoils(s4);
    CountsReset(s4);
  }

  lemma AcksTheByte(s: State)
    requires s.supportsResetStreamAt && !s.v.cancelled && !s.v.shutdown && s.v.reliable == 0 && s.v.writeOffset == 1
    requires |s.v.inFlight| == 1 && s.num == 1 && !s.v.finSent && s.resets == [] && !s.completed
    ensures var s' := OnAcked(s, 0);
            && StepTo(s, AckedEvent(0), s')
            && s'.supportsResetStreamAt && !s'.v.cancelled && !s'.v.shutdown && s'.v.reliable == 0
            && s'.v.writeOffset == 1
            && s'.v.inFlight == [] && s'.resets == [] && !s'.completed
  {
  }

  lemma CountsReset(s: State)
    requires s.supportsResetStreamAt && s.v.cancelled && s.v.reliable == 0 && s.v.writeOffset == 1 && s.v.next == None
    requires s.v.inFlight == [] && s.num == 0 && s.resets == [] && s.queued.Some? && s.queued.value.reliableSize == 0
    ensures var s' := GetControlFrame(SetReliableBoundary(s)).0;
            s'.v.cancelled && s'.completed == s.completed && s'.num > Outstanding(s')
  {
    CountedOne(s.queued.value, 1);
    assert s.resets + [s.queued.value] == [s.queued.value];
  }
}

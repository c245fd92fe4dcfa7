/** The critical sections of a send stream as steps of a state machine, and what every run of them keeps. */
module SendSpec {
  import opened Protocol
  import opened StreamFrames
  import opened SendLedger

  /** The state of a send stream. `v` holds what concerns the stream's bytes; `resets` are the RESET_STREAM frames in
      flight; `completions` counts how often the stream was reported as completed. */
  datatype State = State(
    streamId: nat, supportsResetStreamAt: bool,
    v: View, num: int, resets: seq<ResetFrame>, queued: Option<ResetFrame>, errorCode: nat,
    flagged: bool, completed: bool, completions: nat, writing: Option<nat>)

  /** A RESET_STREAM frame in flight that announces the current reliable size. */
  ghost predicate ResetInFlight(resets: seq<ResetFrame>, reliable: nat) {
    exists k :: 0 <= k < |resets| && resets[k].reliableSize == reliable
  }

  /** The number of frames in flight whose acknowledgement or loss still counts: STREAM frames count unless the stream
      is cancelled without reliable data; a RESET_STREAM frame counts if it is up to date. */
  ghost predicate Accounted(s: State) {
    && s.num == (if s.v.cancelled && s.v.reliable == 0 then 0 else |s.v.inFlight|)
       + (if ResetInFlight(s.resets, s.v.reliable) then 1 else 0)
    && (!s.v.cancelled ==> s.resets == [] && s.queued == None)
    && (forall i, j :: 0 <= i < j < |s.resets| ==>
          s.resets[i].reliableSize != s.v.reliable || s.resets[j].reliableSize != s.v.reliable)
    && (s.queued.Some? ==> s.queued.value.reliableSize == s.v.reliable && !ResetInFlight(s.resets, s.v.reliable))
    && (s.v.reliable != 0 ==> forall k :: 0 <= k < |s.resets| ==> s.resets[k].reliableSize == s.v.reliable)
    && (!s.supportsResetStreamAt ==> s.v.reliable == 0)
    && (s.v.cancelled && s.v.reliable == 0 ==> s.v.queue == [])
  }

  /** The condition under which a stream is done. */
  predicate Done(s: State) {
    && Buffered(s.v.next) == [] && s.num <= 0 && s.v.queue == [] && s.queued == None
    && (s.v.finSent || (s.v.cancelled && (s.flagged || s.v.finishedWriting)))
  }

  /** Reports the completion, if the stream is done and was not reported before. */
  function Report(s: State): State {
    if !s.completed && Done(s) then s.(completed := true, completions := s.completions + 1) else s
  }

  /** Completion is reported at most once; and a stream that was reported without being cancelled has nothing
      outstanding. */
  ghost predicate Reporting(s: State) {
    && s.completions == (if s.completed then 1 else 0)
    && (s.completed ==> s.v.finSent || s.v.cancelled)
    && (s.completed && !s.v.cancelled && !s.v.shutdown ==> s.v.inFlight == [] && s.v.queue == [])
  }

  /** A stream that is done has been reported. */
  ghost predicate Reported(s: State) {
    !s.v.shutdown && Done(s) ==> s.completed
  }

  ghost predicate Writing(s: State) {
    && (s.writing.None? && !s.v.cancelled && !s.v.shutdown ==> s.v.pending == [])
    && (s.writing.Some? ==> |s.v.pending| <= s.writing.value && |s.v.pending| <= |s.v.written|)
    && s.streamId <= MAX_BYTE_COUNT && s.v.writeOffset <= MAX_BYTE_COUNT
  }

  ghost predicate Inv(s: State) {
    Conserving(s.v) && Accounted(s) && Reporting(s) && Reported(s) && Writing(s)
  }

  datatype WriteError = NoError | CancelledError | ShutdownError | ClosedError | DeadlineError

  datatype WriteResult = Blocked | Returned(n: int, err: WriteError)

  predicate CanBuffer(v: View) {
    |Buffered(v.next)| + |v.pending| <= MAX_PACKET_BUFFER_SIZE
  }

  /** One round of the loop in Write, from locking the mutex until it is unlocked. */
  function WriteOnce(s: State, deadlineOver: bool): (State, WriteResult)
    requires s.writing.Some? && |s.v.pending| <= |s.v.written|
  {
    var len, left := s.writing.value, |s.v.pending|;
    if CanBuffer(s.v) && left > 0 then
      (s.(v := s.v.(next := Buffer(s.v), pending := []), writing := None), Returned(len, NoError))
    else StopOrWait(s, deadlineOver)
  }

  /** The rest of the round, if the data does not fit into the buffer. */
  function StopOrWait(s: State, deadlineOver: bool): (State, WriteResult)
    requires s.writing.Some? && |s.v.pending| <= |s.v.written|
  {
    var len, left := s.writing.value, |s.v.pending|;
    if deadlineOver then
      (s.(v := s.v.(pending := [], written := s.v.written[..|s.v.written| - left]), writing := None),
       Returned(len - left, DeadlineError))
    else if left > 0 && !s.v.shutdown && !s.v.cancelled then
      (s, Blocked)
    else if left == 0 then
      (s.(writing := None), Returned(len, NoError))
    else if s.v.shutdown then
      (s.(writing := None), Returned(len - left, ShutdownError))
    else
      (Report(s.(writing := None, flagged := true)), Returned(len - left, CancelledError))
  }

  /** The first critical section of Write. */
  function BeginWrite(s: State, p: seq<byte>, deadlineOver: bool, deadlineOverNow: bool): (State, WriteResult)
    requires s.writing.None?
  {
    if s.v.cancelled then (Report(s.(flagged := true)), Returned(0, CancelledError))
    else if s.v.shutdown then (s, Returned(0, ShutdownError))
    else if s.v.finishedWriting then (s, Returned(0, ClosedError))
    else if deadlineOver then (s, Returned(0, DeadlineError))
    else if p == [] then (s, Returned(0, NoError))
    else WriteOnce(s.(v := s.v.(pending := p, written := s.v.written + p), writing := Some(|p|)), deadlineOverNow)
  }

  function Close(s: State): State {
    if s.v.shutdown || s.v.finishedWriting then s
    else
      Report(s.(v := s.v.(finishedWriting := true), flagged := s.flagged || s.v.cancelled))
  }

  function SetReliableBoundary(s: State): State {
    if s.supportsResetStreamAt then s.(v := s.v.(reliable := s.v.writeOffset + |Buffered(s.v.next)|)) else s
  }

  function CloseForShutdown(s: State): State {
    if s.v.shutdown || s.v.finishedWriting then s
    else s.(v := s.v.(shutdown := true, queue := [], next := None))
  }

  function CancelWrite(s: State, errorCode: nat): State {
    if s.v.shutdown then s
    else if s.v.cancelled then Report(s.(flagged := true))
    else
      var r := s.v.reliable;
      var finalSize := if s.v.writeOffset < r then r else s.v.writeOffset;
      s.(v := s.v.(cancelled := true, next := NextBelow(s.v.next, r), queue := AllBelow(s.v.queue, r)),
         num := if r == 0 then 0 else s.num, flagged := true, errorCode := errorCode,
         queued := Some(ResetFrame(finalSize, errorCode, r)))
  }

  function HandleStopSending(s: State, errorCode: nat): State {
    if s.v.shutdown || (s.v.cancelled && s.v.reliable == 0) then s
    else
      var code := if s.v.cancelled then s.errorCode else errorCode;
      s.(v := s.v.(cancelled := true, reliable := 0, next := None, queue := []),
         num := 0, errorCode := code, queued := Some(ResetFrame(s.v.writeOffset, code, 0)))
  }

  function GetControlFrame(s: State): (State, Option<ResetFrame>) {
    match s.queued
    case None => (s, None)
    case Some(f) => (s.(num := s.num + 1, resets := s.resets + [f], queued := None), Some(f))
  }

  /** A STREAM frame in flight is acknowledged. */
  function OnAcked(s: State, k: nat): State
    requires k < |s.v.inFlight|
  {
    var v' := s.v.(acked := s.v.acked + multiset{s.v.inFlight[k]}, inFlight := Without(s.v.inFlight, k));
    if s.v.cancelled && s.v.reliable == 0 then s.(v := v')
    else Report(s.(v := v', num := s.num - 1))
  }

  /** A STREAM frame in flight is lost. */
  function OnLost(s: State, k: nat): State
    requires k < |s.v.inFlight|
  {
    if s.v.cancelled && s.v.reliable == 0 then s.(v := Lost(s.v, k))
    else if s.v.cancelled && s.v.inFlight[k].offset >= s.v.reliable then Report(s.(v := Lost(s.v, k), num := s.num - 1))
    else s.(v := Lost(s.v, k), num := s.num - 1)
  }

  function WithoutReset(resets: seq<ResetFrame>, k: nat): seq<ResetFrame>
    requires k < |resets|
  {
    resets[..k] + resets[k + 1..]
  }

  /** A RESET_STREAM frame in flight is acknowledged. */
  function OnResetAcked(s: State, k: nat): State
    requires k < |s.resets|
  {
    var s' := s.(resets := WithoutReset(s.resets, k));
    if s.resets[k].reliableSize != s.v.reliable then s' else Report(s'.(num := s.num - 1))
  }

  function OnResetLost(s: State, k: nat): State
    requires k < |s.resets|
  {
    var s' := s.(resets := WithoutReset(s.resets, k));
    if s.resets[k].reliableSize != s.v.reliable then s'
    else s'.(queued := Some(s.resets[k]), num := s.num - 1)
  }

  /** The frames that wait to be sent again can be measured and split. */
  predicate QueueFits(s: State) {
    forall f :: f in s.v.queue ==> f.End() <= MAX_BYTE_COUNT && |f.data| <= MAX_PACKET_BUFFER_SIZE
  }

  /** Takes the next frame to send: a retransmission, new data or the FIN. */
  function PopStreamFrame(s: State, maxBytes: nat, window: nat): (State, Option<StreamFrame>)
    requires s.streamId <= MAX_BYTE_COUNT && s.v.writeOffset <= MAX_BYTE_COUNT && maxBytes <= MAX_PACKET_BUFFER_SIZE
    requires QueueFits(s)
  {
    var v, r := s.v, s.v.reliable;
    if v.shutdown || (v.cancelled && (r == 0 || (v.writeOffset >= r && v.queue == []))) then (s, None)
    else if v.queue != [] then PopRetransmission(s, maxBytes)
    else if v.pending == [] && v.next.None? then
      if v.finishedWriting && !v.finSent then
        var f := StreamFrame(v.writeOffset, [], true);
        (s.(v := v.(finSent := true, inFlight := v.inFlight + [f]), num := s.num + 1), Some(f))
      else (s, None)
    else
      var maxData := Min(if v.cancelled then Min(window, r - v.writeOffset) else window,
                         MaxDataLen(s.streamId, v.writeOffset, maxBytes));
      if maxData == 0 then (s, None)
      else PopNew(s, maxData)
  }

  function PopRetransmission(s: State, maxBytes: nat): (State, Option<StreamFrame>)
    requires s.streamId <= MAX_BYTE_COUNT && maxBytes <= MAX_PACKET_BUFFER_SIZE
    requires s.v.queue != [] && s.v.queue[0].End() <= MAX_BYTE_COUNT && |s.v.queue[0].data| <= MAX_PACKET_BUFFER_SIZE
  {
    var v, f := s.v, s.v.queue[0];
    if maxBytes >= Length(s.streamId, f) then
      (s.(v := v.(queue := v.queue[1..], inFlight := v.inFlight + [f]), num := s.num + 1), Some(f))
    else
      SplitLeavesRest(s.streamId, f, maxBytes);
      var n := MaxDataLen(s.streamId, f.offset, maxBytes);
      if n == 0 then (s, None)
      else (s.(v := RetransmittedPart(v, n), num := s.num + 1), Some(Prefix(f, n)))
  }

  /** How many bytes of new data are taken, at most `maxData`: from the buffered frame or else from the writer. */
  function NewSize(v: View, maxData: nat): (n: nat) {
    Min(maxData, if v.next.Some? then |v.next.value.data| else |v.pending|)
  }

  /** Whether the frame that takes them is the last one. */
  predicate NewFin(v: View, n: nat) {
    v.finishedWriting && !v.finSent
    && (if v.next.Some? then n == |v.next.value.data| && v.pending == [] else n == |v.pending|)
  }

  function NewView(v: View, maxData: nat): View {
    var n := NewSize(v, maxData);
    if v.next.Some? then SentBuffered(v, n, NewFin(v, n)) else SentPending(v, n, NewFin(v, n))
  }

  function NewFrame(v: View, maxData: nat): StreamFrame {
    var n := NewSize(v, maxData);
    StreamFrame(v.writeOffset, (if v.next.Some? then v.next.value.data else v.pending)[..n], NewFin(v, n))
  }

  /** Takes up to `maxData` bytes of new data. */
  function PopNew(s: State, maxData: nat): (State, Option<StreamFrame>)
    requires s.v.next.Some? || s.v.pending != []
  {
    (s.(v := NewView(s.v, maxData), num := s.num + 1), Some(NewFrame(s.v, maxData)))
  }

  lemma ReportKeepsInv(s: State)
    requires Conserving(s.v) && Accounted(s) && Reporting(s) && Writing(s)
    ensures Inv(Report(s))
  {
    hide Conserving;
  }

  lemma WriteOnceInv(s: State, deadlineOver: bool)
    requires Inv(s) && s.writing.Some?
    ensures Inv(WriteOnce(s, deadlineOver).0)
  {
    hide Conserving;
    if CanBuffer(s.v) && s.v.pending != [] {
      WriteBuffers(s.v);
    } else if deadlineOver {
      WriteTimesOut(s.v);
    } else if s.v.pending != [] && !s.v.shutdown && s.v.cancelled {
      ReportKeepsInv(s.(writing := None, flagged := true));
    }
  }

  lemma BeginWriteInv(s: State, p: seq<byte>, deadlineOver: bool, deadlineOverNow: bool)
    requires Inv(s) && s.writing.None?
    ensures Inv(BeginWrite(s, p, deadlineOver, deadlineOverNow).0)
  {
    hide Conserving;
    if s.v.cancelled {
      ReportKeepsInv(s.(flagged := true));
    } else if !s.v.shutdown && !s.v.finishedWriting && !deadlineOver && p != [] {
      WriteStarts(s.v, p);
      WriteOnceInv(s.(v := s.v.(pending := p, written := s.v.written + p), writing := Some(|p|)), deadlineOverNow);
    }
  }

  lemma CloseInv(s: State)
    requires Inv(s)
    ensures Inv(Close(s))
  {
    hide Conserving;
    Closes(s.v);
    if !s.v.shutdown && !s.v.finishedWriting {
      ReportKeepsInv(s.(v := s.v.(finishedWriting := true), flagged := s.flagged || s.v.cancelled));
    }
  }

  lemma SetReliableBoundaryInv(s: State)
    requires Inv(s) && !s.v.cancelled
    ensures Inv(SetReliableBoundary(s))
  {
    hide Conserving;
    SetsBoundary(s.v, s.v.writeOffset + |Buffered(s.v.next)|);
  }

  lemma CloseForShutdownInv(s: State)
    requires Inv(s)
    ensures Inv(CloseForShutdown(s))
  {
    hide Conserving;
    if !s.v.shutdown && !s.v.finishedWriting {
      GivesUp(s.v, s.v.(shutdown := true, queue := [], next := None));
    }
  }

  lemma {:induction false} NoneBelowZero(frames: seq<StreamFrame>)
    ensures AllBelow(frames, 0) == []
    decreases |frames|
  {
    if frames != [] {
      NoneBelowZero(frames[1..]);
    }
  }

  lemma CancelWriteInv(s: State, errorCode: nat)
    requires Inv(s)
    ensures Inv(CancelWrite(s, errorCode))
  {
    hide Conserving;
    if !s.v.shutdown && s.v.cancelled {
      ReportKeepsInv(s.(flagged := true));
    } else if !s.v.shutdown {
      Cancels(s.v);
      NoneBelowZero(s.v.queue);
    }
  }

  lemma HandleStopSendingInv(s: State, errorCode: nat)
    requires Inv(s)
    ensures Inv(HandleStopSending(s, errorCode))
  {
    hide Conserving;
    if !s.v.shutdown && !(s.v.cancelled && s.v.reliable == 0) {
      GivesUp(s.v, s.v.(cancelled := true, reliable := 0, next := None, queue := []));
    }
  }

  lemma GetControlFrameInv(s: State)
    requires Inv(s)
    ensures Inv(GetControlFrame(s).0)
  {
    hide Conserving;
    if s.queued.Some? {
      var resets' := s.resets + [s.queued.value];
      assert resets'[|s.resets|] == s.queued.value;
    }
  }

  lemma OneLess(frames: seq<StreamFrame>, k: nat)
    requires k < |frames|
    ensures |Without(frames, k)| == |frames| - 1
  {
  }

  lemma OnAckedInv(s: State, k: nat)
    requires Inv(s) && k < |s.v.inFlight|
    ensures Inv(OnAcked(s, k))
    ensures OnAcked(s, k).num >= 0
  {
    hide Conserving, Without;
    Acknowledges(s.v, k);
    OneLess(s.v.inFlight, k);
    var v' := s.v.(acked := s.v.acked + multiset{s.v.inFlight[k]}, inFlight := Without(s.v.inFlight, k));
    if !(s.v.cancelled && s.v.reliable == 0) {
      ReportKeepsInv(s.(v := v', num := s.num - 1));
    }
  }

  lemma OnLostInv(s: State, k: nat)
    requires Inv(s) && k < |s.v.inFlight|
    ensures Inv(OnLost(s, k))
    ensures OnLost(s, k).num >= 0
  {
    hide Conserving;
    Loses(s.v, k);
    if s.v.cancelled && s.v.reliable != 0 && s.v.inFlight[k].offset >= s.v.reliable {
      ReportKeepsInv(s.(v := Lost(s.v, k), num := s.num - 1));
    }
  }

  lemma OnResetAckedInv(s: State, k: nat)
    requires Inv(s) && k < |s.resets|
    ensures Inv(OnResetAcked(s, k))
    ensures OnResetAcked(s, k).num >= 0
  {
    hide Conserving;
    ResetRemoved(s.resets, k, s.v.reliable);
    if s.resets[k].reliableSize == s.v.reliable {
      ReportKeepsInv(s.(resets := WithoutReset(s.resets, k), num := s.num - 1));
    }
  }

  lemma OnResetLostInv(s: State, k: nat)
    requires Inv(s) && k < |s.resets|
    ensures Inv(OnResetLost(s, k))
    ensures OnResetLost(s, k).num >= 0
  {
    hide Conserving;
    ResetRemoved(s.resets, k, s.v.reliable);
  }

  lemma ResetRemoved(resets: seq<ResetFrame>, k: nat, reliable: nat)
    requires k < |resets|
    requires forall i, j :: 0 <= i < j < |resets| ==>
              resets[i].reliableSize != reliable || resets[j].reliableSize != reliable
    ensures var resets' := WithoutReset(resets, k);
            && (resets[k].reliableSize == reliable ==>
                  ResetInFlight(resets, reliable) && !ResetInFlight(resets', reliable))
            && (resets[k].reliableSize != reliable ==>
                  (ResetInFlight(resets, reliable) <==> ResetInFlight(resets', reliable)))
  {
    var resets' := WithoutReset(resets, k);
    if resets[k].reliableSize != reliable && ResetInFlight(resets, reliable) {
      var i :| 0 <= i < |resets| && resets[i].reliableSize == reliable;
      assert resets'[if i < k then i else i - 1] == resets[i];
    }
  }

  /** A frame more is in flight, and it counts. */
  lemma FrameSentInv(s: State, v': View)
    requires Inv(s) && !s.v.shutdown && !(s.v.cancelled && s.v.reliable == 0)
    requires Conserving(v') && |v'.inFlight| == |s.v.inFlight| + 1 && v'.writeOffset <= MAX_BYTE_COUNT
    requires v'.cancelled == s.v.cancelled && v'.shutdown == s.v.shutdown && v'.reliable == s.v.reliable
    requires |v'.pending| <= |s.v.pending| && v'.written == s.v.written && (s.v.finSent ==> v'.finSent)
    requires s.completed ==> s.v.cancelled
    ensures Inv(s.(v := v', num := s.num + 1))
  {
    hide Conserving;
  }

  /** A stream that has sent its FIN has no new data, and one that is reported has no retransmissions. */
  lemma NothingToSend(s: State)
    requires Inv(s) && !s.v.shutdown && !s.v.cancelled && s.v.finSent
    ensures s.v.next == None && s.v.pending == []
    ensures s.completed ==> s.v.queue == []
  {
  }

  lemma PopRetransmissionInv(s: State, maxBytes: nat)
    requires Inv(s) && maxBytes <= MAX_PACKET_BUFFER_SIZE && !s.v.shutdown && !(s.v.cancelled && s.v.reliable == 0)
    requires s.v.queue != [] && s.v.queue[0].End() <= MAX_BYTE_COUNT && |s.v.queue[0].data| <= MAX_PACKET_BUFFER_SIZE
    ensures Inv(PopRetransmission(s, maxBytes).0)
  {
    hide Conserving, Accounted, Reported;
    var f := s.v.queue[0];
    if maxBytes >= Length(s.streamId, f) {
      Retransmits(s.v);
      FrameSentInv(s, s.v.(queue := s.v.queue[1..], inFlight := s.v.inFlight + [f]));
    } else {
      SplitLeavesRest(s.streamId, f, maxBytes);
      var n := MaxDataLen(s.streamId, f.offset, maxBytes);
      if n > 0 {
        RetransmitsPart(s.v, n);
        FrameSentInv(s, RetransmittedPart(s.v, n));
      }
    }
  }

  lemma PopNewInv(s: State, maxData: nat)
    requires Inv(s) && !s.v.shutdown && !(s.v.cancelled && s.v.reliable == 0) && 0 < maxData <= MAX_PACKET_BUFFER_SIZE
    requires s.v.next.Some? || (s.v.pending != [] && !s.v.cancelled)
    requires s.v.next.Some? ==> s.v.next.value.data != []
    requires s.v.cancelled ==> s.v.writeOffset + maxData <= s.v.reliable
    requires s.v.writeOffset + maxData <= MAX_BYTE_COUNT
    ensures Inv(PopNew(s, maxData).0)
  {
    hide Conserving, Accounted, Reported;
    var v := s.v;
    var n := NewSize(v, maxData);
    var fin := NewFin(v, n);
    if !v.cancelled && v.finSent {
      NothingToSend(s);
    }
    if v.next.Some? {
      SendsBuffered(v, n, fin);
      FrameSentInv(s, SentBuffered(v, n, fin));
    } else {
      SendsPending(v, n, fin);
      FrameSentInv(s, SentPending(v, n, fin));
    }
  }

  lemma PopFacts(s: State)
    requires Inv(s) && !s.v.shutdown
    ensures s.v.next.Some? ==> s.v.next.value.data != []
    ensures s.v.cancelled && s.v.reliable > s.v.writeOffset ==> s.v.next.Some?
    ensures s.completed && !s.v.cancelled ==> s.v.finSent
    ensures s.streamId <= MAX_BYTE_COUNT
  {
  }

  lemma QueueAlwaysFits(s: State)
    requires Inv(s)
    ensures QueueFits(s) && s.streamId <= MAX_BYTE_COUNT && s.v.writeOffset <= MAX_BYTE_COUNT
  {
    forall f | f in s.v.queue
      ensures f.End() <= MAX_BYTE_COUNT && |f.data| <= MAX_PACKET_BUFFER_SIZE
    {
      assert f in Frames(s.v);
    }
  }

  lemma PopStreamFrameInv(s: State, maxBytes: nat, window: nat)
    requires Inv(s) && s.v.writeOffset + window <= MAX_BYTE_COUNT && maxBytes <= MAX_PACKET_BUFFER_SIZE
    requires QueueFits(s)
    ensures s.streamId <= MAX_BYTE_COUNT
    ensures Inv(PopStreamFrame(s, maxBytes, window).0)
  {
    hide Conserving, Accounted, Reported, Reporting, Inv, PopNew, PopRetransmission;
    QueueAlwaysFits(s);
    var v, r := s.v, s.v.reliable;
    if v.shutdown || (v.cancelled && (r == 0 || (v.writeOffset >= r && v.queue == []))) {
    } else if v.queue != [] {
      PopRetransmissionInv(s, maxBytes);
    } else {
      PopFacts(s);
      if v.pending == [] && v.next.None? {
        if v.finishedWriting && !v.finSent {
          PopFinInv(s);
        }
      } else {
        var maxData := Min(if v.cancelled then Min(window, r - v.writeOffset) else window,
                           MaxDataLen(s.streamId, v.writeOffset, maxBytes));
        if maxData > 0 {
          PopNewInv(s, maxData);
        }
      }
    }
  }

  lemma PopFinInv(s: State)
    requires Inv(s) && !s.v.shutdown && !(s.v.cancelled && s.v.reliable == 0)
    requires s.v.next == None && s.v.pending == [] && s.v.finishedWriting && !s.v.finSent
    ensures Inv(s.(v := s.v.(finSent := true, inFlight := s.v.inFlight + [StreamFrame(s.v.writeOffset, [], true)]),
                   num := s.num + 1))
  {
    hide Conserving, Accounted, Reported;
    SendsFin(s.v);
    FrameSentInv(s, s.v.(finSent := true, inFlight := s.v.inFlight + [StreamFrame(s.v.writeOffset, [], true)]));
  }

  lemma PopCounts(s: State, maxBytes: nat, window: nat)
    requires s.streamId <= MAX_BYTE_COUNT && s.v.writeOffset <= MAX_BYTE_COUNT && maxBytes <= MAX_PACKET_BUFFER_SIZE
    requires QueueFits(s)
    ensures var (s', f) := PopStreamFrame(s, maxBytes, window); s'.num == if f.Some? then s.num + 1 else s.num
  {
  }

  lemma HeadFits(s: State)
    requires QueueFits(s) && s.v.queue != []
    ensures s.v.queue[0].End() <= MAX_BYTE_COUNT && |s.v.queue[0].data| <= MAX_PACKET_BUFFER_SIZE
  {
    assert s.v.queue[0] in s.v.queue;
  }
}

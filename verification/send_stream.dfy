/** quic-go-bbr/send_stream.go: the sending side of a stream. Every method is one critical section of the original,
    and is a step of the state machine in SendSpec. */
module SendStreams {
  import opened Protocol
  import opened StreamFrames
  import L = SendLedger
  import S = SendSpec
  import R = SendRuns
  import B = SendBoundary
  import P = SendProgress

  /** What was written and sent, what was acknowledged and what is in flight, and how often completion was reported. */
  datatype History = History(written: seq<byte>, sent: seq<byte>, acked: multiset<StreamFrame>,
                             inFlight: seq<StreamFrame>,
                             resets: seq<L.ResetFrame>, completions: nat)

  class SendStream {
    const streamId: nat
    const supportsResetStreamAt: bool

    var numOutstandingFrames: int
    var retransmissionQueue: seq<StreamFrame>
    var reliableSize: nat
    var writeOffset: nat
    var shutdownErr: bool
    var resetErr: Option<nat>
    var queuedResetStreamFrame: Option<L.ResetFrame>
    var finishedWriting: bool
    var finSent: bool
    var cancellationFlagged: bool
    var completed: bool
    var dataForWriting: seq<byte>
    var nextFrame: Option<StreamFrame>

    /** The length of the argument of the Write call in progress, if there is one. */
    var writing: Option<nat>

    ghost var history: History

    function ReliableOffset(): nat
      reads this
    {
      if supportsResetStreamAt then reliableSize else 0
    }

    ghost function V(): L.View
      reads this
    {
      L.View(resetErr.Some?, shutdownErr, ReliableOffset(), finishedWriting, finSent, writeOffset, nextFrame,
             dataForWriting,
             retransmissionQueue, history.written, history.sent, history.acked, history.inFlight)
    }

    ghost function State(): S.State
      reads this
    {
      S.State(streamId, supportsResetStreamAt, V(), numOutstandingFrames, history.resets, queuedResetStreamFrame,
              if resetErr.Some? then resetErr.value else 0, cancellationFlagged, completed, history.completions,
              writing)
    }

    ghost predicate Valid()
      reads this
    {
      S.Inv(State())
    }

    constructor (streamId: nat, supportsResetStreamAt: bool)
      requires streamId <= MAX_BYTE_COUNT
      ensures State() == R.Fresh(streamId, supportsResetStreamAt)
      ensures Valid()
    {
      this.streamId, this.supportsResetStreamAt := streamId, supportsResetStreamAt;
      numOutstandingFrames, retransmissionQueue, reliableSize, writeOffset := 0, [], 0, 0;
      shutdownErr, resetErr, queuedResetStreamFrame := false, None, None;
      finishedWriting, finSent, cancellationFlagged, completed := false, false, false, false;
      dataForWriting, nextFrame, writing := [], None, None;
      history := History([], [], multiset{}, [], [], 0);
      R.FreshInv(streamId, supportsResetStreamAt);
    }

    /** isNewlyCompleted */
    method IsNewlyCompleted() returns (newly: bool)
      modifies this`completed, this`history
      ensures State() == S.Report(old(State()))
      ensures newly <==> completed && !old(completed)
    {
      if completed {
        return false;
      }
      if nextFrame.Some? && |nextFrame.value.data| > 0 {
        return false;
      }
      if numOutstandingFrames > 0 || |retransmissionQueue| > 0 || queuedResetStreamFrame.Some? {
        return false;
      }
      if finSent {
        completed, history := true, history.(completions := history.completions + 1);
        return true;
      }
      if resetErr.Some? && (cancellationFlagged || finishedWriting) {
        completed, history := true, history.(completions := history.completions + 1);
        return true;
      }
      return false;
    }

    method CanBufferStreamFrame() returns (can: bool)
      ensures can == S.CanBuffer(V())
      ensures can <==> |L.Buffer(V()).value.data| <= MAX_PACKET_BUFFER_SIZE
    {
      var l := 0;
      if nextFrame.Some? {
        l := |nextFrame.value.data|;
      }
      can := l + |dataForWriting| <= MAX_PACKET_BUFFER_SIZE;
    }

    /** The part of write before its loop, and the first round of it. */
    method BeginWrite(p: seq<byte>, deadlineOver: bool, deadlineOverNow: bool) returns (r: S.WriteResult, newly: bool)
      requires Valid() && writing.None?
      modifies this
      ensures (State(), r) == S.BeginWrite(old(State()), p, deadlineOver, deadlineOverNow)
      ensures Valid()
      ensures newly <==> completed && !old(completed)
    {
      hide S.Inv, S.Report, S.WriteOnce;
      S.BeginWriteInv(State(), p, deadlineOver, deadlineOverNow);
      newly := false;
      if resetErr.Some? {
        cancellationFlagged := true;
        newly := IsNewlyCompleted();
        return S.Returned(0, S.CancelledError), newly;
      }
      if shutdownErr {
        return S.Returned(0, S.ShutdownError), false;
      }
      if finishedWriting {
        return S.Returned(0, S.ClosedError), false;
      }
      if deadlineOver {
        return S.Returned(0, S.DeadlineError), false;
      }
      if |p| == 0 {
        return S.Returned(0, S.NoError), false;
      }
      dataForWriting := p;
      history := history.(written := history.written + p);
      writing := Some(|p|);
      r, newly := WriteRound(deadlineOverNow);
    }

    /** One round of the loop in write. */
    method WriteRound(deadlineOver: bool) returns (r: S.WriteResult, newly: bool)
      requires writing.Some? && |dataForWriting| <= |history.written|
      modifies this
      ensures (State(), r) == S.WriteOnce(old(State()), deadlineOver)
      ensures newly <==> completed && !old(completed)
    {
      hide S.StopOrWait;
      var len := writing.value;
      var canBuffer := CanBufferStreamFrame();
      if canBuffer && |dataForWriting| > 0 {
        if nextFrame.None? {
          nextFrame := Some(StreamFrame(writeOffset, dataForWriting, false));
        } else {
          nextFrame := Some(nextFrame.value.(data := nextFrame.value.data + dataForWriting));
        }
        StopWriting();
        return S.Returned(len, S.NoError), false;
      }
      r, newly := StopOrWait(deadlineOver);
    }

    /** The rest of the round, if the data was not buffered. */
    method StopOrWait(deadlineOver: bool) returns (r: S.WriteResult, newly: bool)
      requires writing.Some? && |dataForWriting| <= |history.written|
      modifies this
      ensures (State(), r) == S.StopOrWait(old(State()), deadlineOver)
      ensures newly <==> completed && !old(completed)
    {
      hide S.Report;
      newly := false;
      var len := writing.value;
      var bytesWritten := len - |dataForWriting|;
      if deadlineOver {
        history := history.(written := history.written[..|history.written| - |dataForWriting|]);
        StopWriting();
        return S.Returned(bytesWritten, S.DeadlineError), false;
      }
      if dataForWriting != [] && !shutdownErr && resetErr.None? {
        return S.Blocked, false;
      }
      writing := None;
      if bytesWritten == len {
        return S.Returned(bytesWritten, S.NoError), false;
      }
      if shutdownErr {
        return S.Returned(bytesWritten, S.ShutdownError), false;
      }
      cancellationFlagged := true;
      newly := IsNewlyCompleted();
      r := S.Returned(bytesWritten, S.CancelledError);
    }

    method StopWriting()
      modifies this`dataForWriting, this`writing
      ensures dataForWriting == [] && writing == None
    {
      dataForWriting, writing := [], None;
    }

    /** The loop in write goes on after it was woken up. */
    method ResumeWrite(deadlineOver: bool) returns (r: S.WriteResult, newly: bool)
      requires Valid() && writing.Some?
      modifies this
      ensures (State(), r) == S.WriteOnce(old(State()), deadlineOver)
      ensures Valid()
      ensures newly <==> completed && !old(completed)
    {
      S.WriteOnceInv(State(), deadlineOver);
      r, newly := WriteRound(deadlineOver);
    }

    method Close() returns (newly: bool)
      requires Valid()
      modifies this
      ensures State() == S.Close(old(State()))
      ensures Valid()
      ensures newly <==> completed && !old(completed)
    {
      hide S.Inv, S.Report;
      S.CloseInv(State());
      if shutdownErr || finishedWriting {
        return false;
      }
      finishedWriting := true;
      if resetErr.Some? {
        cancellationFlagged := true;
      }
      newly := IsNewlyCompleted();
    }

    method SetReliableBoundary()
      requires Valid()
      modifies this`reliableSize
      ensures State() == S.SetReliableBoundary(old(State()))
      ensures old(resetErr).None? || V().reliable == old(V().reliable) ==> Valid()
      ensures old(B.KeepsCount(State())) <==> !B.CanMiscount(State())
      ensures old(B.KeepsCount(State())) <==> !B.CanPanic(State()) && !B.CanOvercount(State())
      ensures !completed ==> (old(B.KeepsCount(State())) <==> !B.CanPanic(State()) && !B.CanStall(State()))
    {
      hide S.Inv, B.KeepsCount, B.CanMiscount, B.CanPanic, B.CanOvercount, B.CanStall;
      B.BoundaryExactly(State());
      if resetErr.None? {
        S.SetReliableBoundaryInv(State());
      }
      reliableSize := writeOffset;
      if nextFrame.Some? {
        reliableSize := reliableSize + |nextFrame.value.data|;
      }
    }

    method CloseForShutdown()
      requires Valid()
      modifies this
      ensures State() == S.CloseForShutdown(old(State()))
      ensures Valid()
    {
      hide S.Inv;
      S.CloseForShutdownInv(State());
      if !shutdownErr && !finishedWriting {
        shutdownErr := true;
        retransmissionQueue, nextFrame := [], None;
      }
    }

    method CancelWrite(errorCode: nat) returns (newly: bool)
      requires Valid()
      modifies this
      ensures State() == S.CancelWrite(old(State()), errorCode)
      ensures Valid()
      ensures newly <==> completed && !old(completed)
    {
      hide S.Inv, S.Report, L.NextBelow, AllBelow;
      S.CancelWriteInv(State(), errorCode);
      if shutdownErr {
        return false;
      }
      cancellationFlagged := true;
      if resetErr.Some? {
        newly := IsNewlyCompleted();
        return;
      }
      resetErr := Some(errorCode);
      var r := ReliableOffset();
      if r == 0 {
        S.NoneBelowZero(retransmissionQueue);
        L.NextBelowZero(nextFrame);
        DropFrames();
      }
      queuedResetStreamFrame := Some(L.ResetFrame(if writeOffset < r then r else writeOffset, errorCode, r));
      if r > 0 {
        TruncateToReliable(r);
      }
      newly := false;
    }

    /** All frames are given up. */
    method DropFrames()
      modifies this`numOutstandingFrames, this`retransmissionQueue, this`nextFrame
      ensures numOutstandingFrames == 0 && retransmissionQueue == [] && nextFrame == None
    {
      numOutstandingFrames, retransmissionQueue, nextFrame := 0, [], None;
    }

    /** The part of CancelWrite that drops the data above the reliable size. */
    method TruncateToReliable(r: nat)
      requires r > 0
      modifies this`nextFrame, this`retransmissionQueue
      ensures nextFrame == L.NextBelow(old(nextFrame), r)
      ensures retransmissionQueue == AllBelow(old(retransmissionQueue), r)
    {
      if nextFrame.Some? {
        if nextFrame.value.offset >= r {
          nextFrame := None;
        } else if nextFrame.value.offset + |nextFrame.value.data| > r {
          nextFrame := Some(nextFrame.value.(data := nextFrame.value.data[..r - nextFrame.value.offset]));
        }
      }
      var queue := KeepReliable(retransmissionQueue, r);
      retransmissionQueue := queue;
    }

    /** The loop in CancelWrite over the retransmission queue. */
    static method KeepReliable(queue: seq<StreamFrame>, r: nat) returns (kept: seq<StreamFrame>)
      ensures kept == AllBelow(queue, r)
    {
      hide AllBelow;
      kept := [];
      var i := 0;
      NothingBelow(queue[..i], r);
      while i < |queue|
        invariant 0 <= i <= |queue|
        invariant kept == AllBelow(queue[..i], r)
      {
        var f := queue[i];
        assert queue[..i + 1] == queue[..i] + [f];
        AllBelowSnoc(queue[..i], [f], r);
        if f.offset < r {
          if f.offset + |f.data| <= r {
            kept := kept + [f];
          } else {
            kept := kept + [f.(data := f.data[..r - f.offset])];
          }
        }
        i := i + 1;
      }
      assert queue[..i] == queue;
    }

    method HandleStopSendingFrame(errorCode: nat)
      requires Valid()
      modifies this
      ensures State() == S.HandleStopSending(old(State()), errorCode)
      ensures Valid()
    {
      hide S.Inv;
      S.HandleStopSendingInv(State(), errorCode);
      if shutdownErr {
        return;
      }
      if resetErr.Some? && ReliableOffset() == 0 {
        return;
      }
      reliableSize := 0;
      DropFrames();
      if resetErr.None? {
        resetErr := Some(errorCode);
      }
      queuedResetStreamFrame := Some(L.ResetFrame(writeOffset, resetErr.value, 0));
    }

    method GetControlFrame() returns (f: Option<L.ResetFrame>)
      requires Valid()
      modifies this
      ensures (State(), f) == S.GetControlFrame(old(State()))
      ensures Valid()
    {
      hide S.Inv;
      S.GetControlFrameInv(State());
      if queuedResetStreamFrame.None? {
        return None;
      }
      numOutstandingFrames := numOutstandingFrames + 1;
      f := queuedResetStreamFrame;
      history := history.(resets := history.resets + [f.value]);
      queuedResetStreamFrame := None;
    }

    /** The frame with index `k` among those in flight is acknowledged. */
    method OnAcked(ghost k: nat) returns (newly: bool)
      requires Valid() && k < |history.inFlight|
      modifies this
      ensures State() == S.OnAcked(old(State()), k)
      ensures Valid()
      ensures newly <==> completed && !old(completed)
    {
      hide S.Inv, S.Report, L.Without;
      S.OnAckedInv(State(), k);
      R.NoPanicInv(State(), R.AckedEvent(k));
      history := history.(acked := history.acked + multiset{history.inFlight[k]},
                          inFlight := L.Without(history.inFlight, k));
      if resetErr.Some? && ReliableOffset() == 0 {
        return false;
      }
      numOutstandingFrames := numOutstandingFrames - 1;
      // the panic "numOutStandingFrames negative" is unreachable
      assert numOutstandingFrames >= 0;
      newly := IsNewlyCompleted();
    }

    /** The frame `f`, with index `k` among those in flight, is lost. */
    method OnLost(f: StreamFrame, ghost k: nat) returns (newly: bool)
      requires Valid() && k < |history.inFlight| && f == history.inFlight[k]
      modifies this
      ensures State() == S.OnLost(old(State()), k)
      ensures Valid()
      ensures newly <==> completed && !old(completed)
    {
      hide S.Inv, S.Report, L.Without;
      S.OnLostInv(State(), k);
      R.NoPanicInv(State(), R.LostEvent(k));
      newly := false;
      history := history.(inFlight := L.Without(history.inFlight, k));
      if resetErr.Some? && ReliableOffset() == 0 {
        return;
      }
      numOutstandingFrames := numOutstandingFrames - 1;
      // the panic "numOutStandingFrames negative" is unreachable
      assert numOutstandingFrames >= 0;
      var frame := f;
      if resetErr.Some? && ReliableOffset() > 0 {
        if f.offset >= ReliableOffset() {
          assert retransmissionQueue + [] == retransmissionQueue;
          newly := IsNewlyCompleted();
          return;
        }
        if f.offset + |f.data| > ReliableOffset() {
          frame := f.(data := f.data[..ReliableOffset() - f.offset]);
        }
      }
      retransmissionQueue := retransmissionQueue + [frame];
    }

    method OnResetAcked(f: L.ResetFrame, ghost k: nat) returns (newly: bool)
      requires Valid() && k < |history.resets| && f == history.resets[k]
      modifies this
      ensures State() == S.OnResetAcked(old(State()), k)
      ensures Valid()
      ensures newly <==> completed && !old(completed)
    {
      hide S.Inv, S.Report, S.WithoutReset;
      S.OnResetAckedInv(State(), k);
      R.NoPanicInv(State(), R.ResetAckedEvent(k));
      history := history.(resets := S.WithoutReset(history.resets, k));
      if f.reliableSize != ReliableOffset() {
        return false;
      }
      numOutstandingFrames := numOutstandingFrames - 1;
      // the panic "numOutStandingFrames negative" is unreachable
      assert numOutstandingFrames >= 0;
      newly := IsNewlyCompleted();
    }

    method OnResetLost(f: L.ResetFrame, ghost k: nat)
      requires Valid() && k < |history.resets| && f == history.resets[k]
      modifies this
      ensures State() == S.OnResetLost(old(State()), k)
      ensures Valid()
    {
      hide S.Inv;
      S.OnResetLostInv(State(), k);
      history := history.(resets := S.WithoutReset(history.resets, k));
      if f.reliableSize != ReliableOffset() {
        return;
      }
      queuedResetStreamFrame := Some(f);
      numOutstandingFrames := numOutstandingFrames - 1;
    }

    /** popStreamFrame: the frame that is returned counts as outstanding. */
    method PopStreamFrame(maxBytes: nat, window: nat) returns (f: Option<StreamFrame>)
      requires Valid() && maxBytes <= MAX_PACKET_BUFFER_SIZE && writeOffset + window <= MAX_BYTE_COUNT
      modifies this
      ensures S.QueueFits(old(State())) && streamId <= MAX_BYTE_COUNT
      ensures (State(), f) == S.PopStreamFrame(old(State()), maxBytes, window)
      ensures P.Pops(old(State()), maxBytes, window, State(), f)
      ensures Valid()
    {
      hide S.Inv, S.QueueFits, S.PopStreamFrame, P.Pops;
      P.PopsExactly(State(), maxBytes, window);
      S.QueueAlwaysFits(State());
      S.PopStreamFrameInv(State(), maxBytes, window);
      S.PopCounts(State(), maxBytes, window);
      f := PopNewOrRetransmitted(maxBytes, window);
      if f.Some? {
        numOutstandingFrames := numOutstandingFrames + 1;
      }
    }

    /** popNewOrRetransmittedStreamFrame */
    method PopNewOrRetransmitted(maxBytes: nat, window: nat) returns (f: Option<StreamFrame>)
      requires S.QueueFits(State()) && streamId <= MAX_BYTE_COUNT
      requires maxBytes <= MAX_PACKET_BUFFER_SIZE && writeOffset + window <= MAX_BYTE_COUNT
      modifies this`finSent, this`writeOffset, this`nextFrame, this`dataForWriting, this`retransmissionQueue,
               this`history
      ensures f == S.PopStreamFrame(old(State()), maxBytes, window).1
      ensures State() == S.PopStreamFrame(old(State()), maxBytes, window).0.(num := old(numOutstandingFrames))
    {
      hide S.Inv, S.QueueFits, S.PopRetransmission, S.NewView, S.NewFrame, MaxDataLen;
      if shutdownErr {
        return None;
      }
      var r := ReliableOffset();
      if resetErr.Some? {
        if r == 0 || (writeOffset >= r && |retransmissionQueue| == 0) {
          return None;
        }
      }
      if |retransmissionQueue| > 0 {
        S.HeadFits(State());
        f := MaybeGetRetransmission(maxBytes);
        return;
      }
      if |dataForWriting| == 0 && nextFrame.None? {
        if finishedWriting && !finSent {
          f := Some(StreamFrame(writeOffset, [], true));
          finSent, history := true, history.(inFlight := history.inFlight + [f.value]);
          return;
        }
        return None;
      }
      var maxDataLen := window;
      if maxDataLen == 0 {
        return None;
      }
      if resetErr.Some? && r > 0 {
        maxDataLen := Min(maxDataLen, r - writeOffset);
      }
      maxDataLen := Min(maxDataLen, MaxDataLen(streamId, writeOffset, maxBytes));
      if maxDataLen == 0 {
        return None;
      }
      var newFrame := PopNewStreamFrame(maxDataLen);
      f := Some(newFrame);
    }

    method MaybeGetRetransmission(maxBytes: nat) returns (f: Option<StreamFrame>)
      requires streamId <= MAX_BYTE_COUNT && maxBytes <= MAX_PACKET_BUFFER_SIZE
      requires retransmissionQueue != [] && retransmissionQueue[0].End() <= MAX_BYTE_COUNT
      requires |retransmissionQueue[0].data| <= MAX_PACKET_BUFFER_SIZE
      modifies this`retransmissionQueue, this`history
      ensures f == S.PopRetransmission(old(State()), maxBytes).1
      ensures State() == S.PopRetransmission(old(State()), maxBytes).0.(num := old(numOutstandingFrames))
    {
      hide Length, MaxDataLen, HeaderLen;
      var head := retransmissionQueue[0];
      if maxBytes >= Length(streamId, head) {
        f := Some(head);
        retransmissionQueue := retransmissionQueue[1..];
      } else {
        SplitLeavesRest(streamId, head, maxBytes);
        var n := MaxDataLen(streamId, head.offset, maxBytes);
        if n == 0 {
          return None;
        }
        f := Some(Prefix(head, n));
        retransmissionQueue := retransmissionQueue[0 := Rest(head, n)];
      }
      history := history.(inFlight := history.inFlight + [f.value]);
    }

    /** popNewStreamFrame, with the bookkeeping that follows it. */
    method PopNewStreamFrame(maxDataLen: nat) returns (f: StreamFrame)
      requires maxDataLen > 0 && (nextFrame.Some? || dataForWriting != [])
      modifies this`finSent, this`writeOffset, this`nextFrame, this`dataForWriting, this`history
      ensures f == S.NewFrame(old(V()), maxDataLen)
      ensures V() == S.NewView(old(V()), maxDataLen)
      ensures history.resets == old(history).resets && history.completions == old(history).completions
    {
      ghost var v, n := V(), S.NewSize(V(), maxDataLen);
      var data := TakeData(maxDataLen);
      var fin := finishedWriting && dataForWriting == [] && nextFrame.None? && !finSent;
      assert fin == S.NewFin(v, n);
      hide S.NewFin, S.NewSize;
      f := StreamFrame(writeOffset, data, fin);
      writeOffset, finSent := writeOffset + |data|, finSent || fin;
      history := history.(sent := history.sent + data, inFlight := history.inFlight + [f]);
    }

    /** Takes up to `maxDataLen` bytes from the buffered frame, or else from the data of the writer. */
    method TakeData(maxDataLen: nat) returns (data: seq<byte>)
      requires maxDataLen > 0 && (nextFrame.Some? || dataForWriting != [])
      modifies this`nextFrame, this`dataForWriting
      ensures old(nextFrame).Some? ==>
                && dataForWriting == old(dataForWriting)
                && var all := old(nextFrame).value.data; var n := Min(maxDataLen, |all|);
                   && data == all[..n]
                   && nextFrame == if n == |all| then None else Some(StreamFrame(writeOffset + n, all[n..], false))
      ensures old(nextFrame).None? ==>
                && nextFrame == None
                && var n := Min(maxDataLen, |old(dataForWriting)|);
                   data == old(dataForWriting)[..n] && dataForWriting == old(dataForWriting)[n..]
    {
      if nextFrame.Some? {
        data := nextFrame.value.data;
        if |data| > maxDataLen {
          nextFrame := Some(StreamFrame(writeOffset + maxDataLen, data[maxDataLen..], false));
          data := data[..maxDataLen];
        } else {
          nextFrame := None;
        }
      } else if |dataForWriting| <= maxDataLen {
        data := dataForWriting;
        dataForWriting := [];
      } else {
        data := dataForWriting[..maxDataLen];
        dataForWriting := dataForWriting[maxDataLen..];
      }
    }
  }
}

/** quic-go-bbr/receive_stream.go: the receiving side of a stream. */
module ReceiveStreams {
  import opened Protocol
  import opened ByteIntervals
  import opened FrameQueue
  import opened Reassembly
  import opened FrameSorting
  import opened ReceiveLedger
  import opened ReceiveEvents

  class ReceiveStream {
    const frameQueue: FrameSorter
    var finalOffset: nat
    var currentFrame: Option<seq<byte>>
    var currentFrameDone: Option<Callback>
    var readPosInFrame: nat
    var currentFrameIsLast: bool
    var queuedStopSending: bool
    var errorRead: bool
    var completed: bool
    var cancelledRemotely: bool
    var cancelledLocally: bool
    var cancelErr: Option<nat>
    var closeForShutdownErr: bool
    var readPos: nat
    var reliableSize: nat

    /** There is a signal in the channel that a waiting call receives from. */
    var readChan: bool

    /** The flow controller's record of the highest offset. */
    var flow: Flow

    /** The frame buffers released by the stream. */
    var released: multiset<Callback>

    ghost var readBytes: seq<byte>
    ghost var completions: nat

    ghost function R(): Reader
      reads this
    {
      Reader(readBytes, currentFrame, readPosInFrame, currentFrameIsLast, finalOffset, flow)
    }

    /** The part of the stream that events change. */
    ghost function N(): Net
      reads this, frameQueue
    {
      Net(flow, finalOffset, cancelledLocally, cancelledRemotely, reliableSize, closeForShutdownErr,
          frameQueue.history.offered)
    }

    ghost predicate Valid()
      reads this, frameQueue
    {
      && frameQueue.Valid()
      && Faithful(R(), frameQueue.history)
      && Accounted()
    }

    /** Buffers are released once, and completion is reported once. */
    ghost predicate Accounted()
      reads this, frameQueue
    {
      && readPos == |readBytes| && finalOffset <= MAX_BYTE_COUNT
      && frameQueue.handedOut == released + (if AtEnd(R()) then multiset{} else CbOf(currentFrameDone))
      && completions == (if completed then 1 else 0)
      && (completed ==> finalOffset < MAX_BYTE_COUNT && (cancelledLocally || errorRead))
      && (cancelledRemotely ==> finalOffset < MAX_BYTE_COUNT)
    }

    constructor ()
      ensures Valid() && fresh(frameQueue) && readBytes == [] && completions == 0 && !readChan && MustWait()
      ensures frameQueue.history.offered == {} && flow == Flow(0, false) && reliableSize == readPos == 0
      ensures !cancelledRemotely && !cancelledLocally && !closeForShutdownErr && N() == NewNet()
      ensures !errorRead && Reported(errorRead)
    {
      var q := new FrameSorter();
      frameQueue := q;
      finalOffset, flow := MAX_BYTE_COUNT, Flow(0, false);
      currentFrame, currentFrameDone, readPosInFrame, currentFrameIsLast := None, None, 0, false;
      queuedStopSending, errorRead, completed := false, false, false;
      cancelledRemotely, cancelledLocally, cancelErr, closeForShutdownErr := false, false, None, false;
      readPos, reliableSize, released, readChan := 0, 0, multiset{}, false;
      readBytes, completions := [], 0;
    }

    predicate RemoteCancellationEffective()
      reads this
    {
      cancelledRemotely && readPos >= reliableSize
    }

    /** A Read has nothing to return. */
    ghost predicate MustWait()
      reads this, frameQueue
    {
      Blocked(N(), readPos, ToRead)
    }

    /** A Peek for `n` bytes has nothing to return. */
    ghost predicate PeekMustWait(n: nat)
      reads this, frameQueue
    {
      Blocked(N(), readPos, ToPeek(n))
    }

    /** signalRead */
    method SignalRead()
      modifies this`readChan
      ensures readChan
    {
      readChan := true;
    }

    /** A waiting call receives the signal. */
    method ReceiveSignal()
      requires Valid()
      modifies this`readChan
      ensures Valid() && !readChan
    {
      hide Faithful, Reassembling, Balanced, Copied, Rest, FrameSorter.Valid;
      readChan := false;
    }

    /** Completion was reported exactly if it is due: the final offset is known, and reading was cancelled or the reader
        has seen an error. */
    ghost predicate Reported(errorSeen: bool)
      reads this`completed, this`finalOffset, this`cancelledLocally
    {
      completed <==> finalOffset < MAX_BYTE_COUNT && (cancelledLocally || errorSeen)
    }

    method IsNewlyCompleted() returns (newly: bool)
      requires Valid()
      modifies this`completed, this`completions
      ensures Valid()
      ensures newly <==> completed && !old(completed)
      ensures Reported(errorRead)
    {
      hide Faithful, Reassembling, Balanced, Copied, Arrived;
      if completed {
        return false;
      }
      if finalOffset == MAX_BYTE_COUNT {
        return false;
      }
      if cancelledLocally {
        completed, completions := true, completions + 1;
        return true;
      }
      if errorRead {
        completed, completions := true, completions + 1;
        return true;
      }
      return false;
    }

    method Release(cb: Option<Callback>)
      modifies this`released
      ensures released == old(released) + CbOf(cb)
    {
      if cb.Some? {
        released := released + multiset{cb.value};
      }
    }

    /** dequeueNextFrame; never called at the end of the stream, so no buffer is released twice. */
    method DequeueNextFrame()
      requires Valid() && Rest(R()) == [] && !AtEnd(R())
      modifies this`currentFrame, this`currentFrameDone, this`currentFrameIsLast, this`readPosInFrame, this`released,
               frameQueue
      ensures currentFrame.Some? ==> Rest(R()) == currentFrame.value != []
      ensures currentFrame.None? ==>
                currentFrameDone.None? && currentFrameIsLast == (readPos >= finalOffset && !cancelledRemotely)
      ensures frameQueue.history.offered == old(frameQueue.history.offered)
      ensures currentFrame.Some? <==> Arrived(frameQueue.history.offered, readPos)
      ensures Valid()
    {
      hide Faithful, Reassembling, Balanced, Copied, Arrived, FrameSorter.Valid;
      ghost var r, h := R(), frameQueue.history;
      var data, doneCb := PopNext();
      DequeueFaithful(r, h, frameQueue.history, data, cancelledRemotely);
      StartFrame(data, doneCb, readPos + |data| >= finalOffset && !cancelledRemotely);
    }

    /** The buffer of the current frame is released, and the next frame is taken from the queue. */
    method PopNext() returns (data: seq<byte>, doneCb: Option<Callback>)
      requires Valid() && Rest(R()) == [] && !AtEnd(R())
      modifies this`released, frameQueue
      ensures frameQueue.history == old(frameQueue.history).(delivered := old(frameQueue.history).delivered + data)
      ensures old(frameQueue.history).delivered == readBytes && readPos + |data| < MAX_BYTE_COUNT
      ensures Copied(frameQueue.history.offered, 0, frameQueue.history.delivered)
      ensures frameQueue.handedOut == released + CbOf(doneCb)
      ensures data == [] ==> doneCb == None
      ensures data != [] <==> Arrived(frameQueue.history.offered, readPos)
      ensures frameQueue.Valid()
    {
      hide Faithful, Reassembling, Balanced, Copied, Arrived;
      DeliveredFacts(frameQueue);
      RestEmpty(R(), frameQueue.history);
      Release(currentFrameDone);
      assert released == frameQueue.handedOut;
      var offset;
      offset, data, doneCb := frameQueue.Pop();
      DeliveredFacts(frameQueue);
    }

    method StartFrame(data: seq<byte>, doneCb: Option<Callback>, isLast: bool)
      modifies this`currentFrame, this`currentFrameDone, this`currentFrameIsLast, this`readPosInFrame
      ensures currentFrame == (if data == [] then None else Some(data)) && currentFrameDone == doneCb
      ensures currentFrameIsLast == isLast && readPosInFrame == 0
    {
      currentFrame := if data == [] then None else Some(data);
      currentFrameDone := doneCb;
      currentFrameIsLast := isLast;
      readPosInFrame := 0;
    }

    /** handleStreamFrameImpl */
    method HandleStreamFrame(data: seq<byte>, offset: nat, fin: bool, doneCb: Option<Callback>, violation: bool)
      returns (ok: bool)
      requires Valid() && offset + |data| < MAX_BYTE_COUNT
      modifies this`flow, this`finalOffset, this`readChan, frameQueue
      ensures ok <==> && Update(old(flow), offset + |data|, fin, violation).Some?
                      && (cancelledLocally || !TooManyHoles(old(frameQueue.history.offered) + BytesAt(data, offset)))
      ensures FrameStep(old(N()), data, offset, fin, violation) == if ok then Some(N()) else None
      ensures ok ==> readChan == (old(readChan) || !cancelledLocally)
      ensures ok ==> (fin ==> finalOffset == offset + |data|) && (!fin ==> finalOffset == old(finalOffset))
      ensures ok && old(finalOffset) < MAX_BYTE_COUNT ==> finalOffset == old(finalOffset)
      ensures ok ==> frameQueue.history.offered ==
                     old(frameQueue.history.offered) + (if cancelledLocally then {} else BytesAt(data, offset))
      ensures ok ==> Valid()
    {
      hide Valid, Faithful, BytesAt, Update, TooManyHoles;
      ok := AdvanceFlow(data, offset, fin, violation);
      if !ok {
        return;
      }
      if cancelledLocally {
        return true;
      }
      ok := PushData(data, offset, doneCb);
    }

    /** The part of handleStreamFrameImpl that checks the offset, and takes over the final offset. */
    method AdvanceFlow(data: seq<byte>, offset: nat, fin: bool, violation: bool) returns (ok: bool)
      requires Valid() && offset + |data| < MAX_BYTE_COUNT
      modifies this`flow, this`finalOffset
      ensures ok <==> Update(old(flow), offset + |data|, fin, violation).Some?
      ensures ok ==> flow == Update(old(flow), offset + |data|, fin, violation).value
      ensures ok ==> finalOffset == if fin then offset + |data| else old(finalOffset)
      ensures ok && old(finalOffset) < MAX_BYTE_COUNT ==> finalOffset == old(finalOffset)
      ensures ok ==> Valid()
      ensures ok ==> var h := frameQueue.history; Faithful(R(), h.(offered := h.offered + BytesAt(data, offset)))
    {
      hide Faithful, Reassembling, Balanced, Exact, Copied, BytesAt, Update, Rest, FrameSorter.Valid;
      var updated := Update(flow, offset + |data|, fin, violation);
      if updated.None? {
        return false;
      }
      FrameFaithful(R(), frameQueue.history, data, offset, fin, violation);
      FinalIsStable(R(), frameQueue.history, offset + |data|, fin, violation);
      SetFinal(updated.value, if fin then offset + |data| else finalOffset);
      ok := true;
    }

    /** The part of it that adds the data. */
    method PushData(data: seq<byte>, offset: nat, doneCb: Option<Callback>) returns (ok: bool)
      requires Valid() && offset + |data| < MAX_BYTE_COUNT
      requires var h := frameQueue.history; Faithful(R(), h.(offered := h.offered + BytesAt(data, offset)))
      modifies this`readChan, frameQueue
      ensures frameQueue.history.offered == old(frameQueue.history.offered) + BytesAt(data, offset)
      ensures ok ==> readChan
      ensures ok <==> !TooManyHoles(frameQueue.history.offered)
      ensures ok ==> Valid()
    {
      hide Faithful, Reassembling, Balanced, Exact, BytesAt, TooManyHoles, FrameSorter.Valid;
      ok := frameQueue.Push(data, offset, doneCb);
      GapsDecide(frameQueue.gaps, frameQueue.history.offered);
      if ok {
        SignalRead();
      }
    }

    method SetFinal(newFlow: Flow, newFinalOffset: nat)
      modifies this`flow, this`finalOffset
      ensures flow == newFlow && finalOffset == newFinalOffset
    {
      flow, finalOffset := newFlow, newFinalOffset;
    }

    /** handleResetStreamFrameImpl */
    method HandleResetStreamFrame(finalSize: nat, errorCode: nat, newReliableSize: nat, violation: bool)
      returns (ok: bool)
      requires Valid() && finalSize < MAX_BYTE_COUNT
      modifies this`flow, this`finalOffset, this`reliableSize, this`cancelledRemotely, this`cancelErr, this`readChan
      ensures ok <==> closeForShutdownErr || Update(old(flow), finalSize, true, violation).Some?
      ensures ResetStep(old(N()), finalSize, newReliableSize, violation) == if ok then Some(N()) else None
      ensures ok ==>
                readChan == (old(readChan) || (!closeForShutdownErr && !cancelledLocally && !old(cancelledRemotely)))
      ensures ok && !closeForShutdownErr ==> cancelledRemotely == (old(cancelledRemotely) || !cancelledLocally)
      ensures ok && old(finalOffset) < MAX_BYTE_COUNT ==> finalOffset == old(finalOffset)
      ensures ok && !closeForShutdownErr && !cancelledLocally ==> cancelledRemotely && finalOffset == finalSize
      ensures old(cancelledRemotely) ==> cancelledRemotely && reliableSize <= old(reliableSize)
      ensures ok && !closeForShutdownErr ==>
                reliableSize == LowerReliableSize(old(cancelledRemotely), old(reliableSize), newReliableSize)
      ensures cancelErr == if cancelledRemotely && !old(cancelledRemotely) then Some(errorCode) else old(cancelErr)
      ensures ok ==> Valid()
    {
      hide Faithful, Reassembling, Balanced, Copied, Update, LowerReliableSize, Rest, FrameSorter.Valid;
      if closeForShutdownErr {
        return true;
      }
      var updated := Update(flow, finalSize, true, violation);
      if updated.None? {
        return false;
      }
      ResetFaithful(R(), frameQueue.history, finalSize, violation);
      FinalIsStable(R(), frameQueue.history, finalSize, true, violation);
      RecordReset(updated.value, finalSize, errorCode, newReliableSize);
      return true;
    }

    /** The rest of handleResetStreamFrameImpl, after the final size was checked. */
    method RecordReset(newFlow: Flow, finalSize: nat, errorCode: nat, newReliableSize: nat)
      modifies this`flow, this`finalOffset, this`reliableSize, this`cancelledRemotely, this`cancelErr, this`readChan
      ensures readChan == (old(readChan) || (!cancelledLocally && !old(cancelledRemotely)))
      ensures flow == newFlow && finalOffset == finalSize
      ensures !cancelledLocally ==> cancelledRemotely
      ensures old(cancelledRemotely) ==> cancelledRemotely && reliableSize <= old(reliableSize)
      ensures reliableSize == LowerReliableSize(old(cancelledRemotely), old(reliableSize), newReliableSize)
      ensures cancelledRemotely == (old(cancelledRemotely) || !cancelledLocally)
      ensures cancelErr == if cancelledRemotely && !old(cancelledRemotely) then Some(errorCode) else old(cancelErr)
    {
      SetFinal(newFlow, finalSize);
      if (!cancelledRemotely && reliableSize == 0) || newReliableSize < reliableSize {
        reliableSize := newReliableSize;
      }
      if cancelledRemotely {
        return;
      }
      if cancelledLocally {
        return;
      }
      cancelledRemotely, cancelErr := true, Some(errorCode);
      SignalRead();
    }

    /** cancelReadImpl */
    method CancelRead(errorCode: nat) returns (queued: bool)
      requires Valid()
      modifies this`cancelledLocally, this`queuedStopSending, this`cancelErr, this`readChan
      ensures Valid()
      ensures readChan == (old(readChan) || queued)
      ensures cancelledLocally == (old(cancelledLocally) || !closeForShutdownErr)
      ensures queued <==> !old(cancelledLocally) && !closeForShutdownErr && !errorRead && !cancelledRemotely
      ensures queuedStopSending == (old(queuedStopSending) || queued)
      ensures cancelErr == if queued then Some(errorCode) else old(cancelErr)
    {
      hide Faithful, Reassembling, Balanced, Copied, Rest, FrameSorter.Valid;
      if cancelledLocally {
        return false;
      }
      if closeForShutdownErr {
        return false;
      }
      cancelledLocally := true;
      if errorRead || cancelledRemotely {
        return false;
      }
      QueueStopSending(errorCode);
      return true;
    }

    method QueueStopSending(errorCode: nat)
      modifies this`queuedStopSending, this`cancelErr, this`readChan
      ensures queuedStopSending && cancelErr == Some(errorCode) && readChan
    {
      queuedStopSending, cancelErr := true, Some(errorCode);
      SignalRead();
    }

    method CloseForShutdown()
      requires Valid()
      modifies this`closeForShutdownErr, this`readChan
      ensures Valid() && closeForShutdownErr && readChan
    {
      hide Faithful, Reassembling, Balanced, Copied;
      closeForShutdownErr := true;
      SignalRead();
    }

    /** One event: the connection is closed exactly if the event is refused. */
    method ApplyOne(event: Event) returns (ok: bool)
      requires Valid() && InRange(event)
      modifies this`flow, this`finalOffset, this`reliableSize, this`cancelledRemotely, this`cancelledLocally,
               this`cancelErr, this`queuedStopSending, this`closeForShutdownErr, this`completed, this`completions,
               this`readChan, frameQueue
      ensures NetStep(old(N()), event) == if ok then Some(N()) else None
      ensures ok ==> Valid()
      ensures ok && old(finalOffset) < MAX_BYTE_COUNT ==> finalOffset == old(finalOffset)
      ensures ok ==> readChan == (old(readChan) || Signals(event, old(N()), errorRead))
      ensures ok && old(MustWait()) && !old(readChan) ==>
                (!MustWait() && !readChan <==> Unsignalled(event, old(N()), errorRead, readPos, ToRead))
      ensures ok ==> Reported(errorRead)
    {
      hide Valid, Blocked, Unsignalled, NetStep, Signals;
      FinalRecorded();
      ghost var net := N();
      ok := Dispatch(event);
      if ok {
        FinalStaysKnown(net, event);
        if Blocked(net, readPos, ToRead) {
          SignalledExcept(net, event, errorRead, readPos, ToRead);
        }
        var _ := IsNewlyCompleted();
      }
    }

    method Dispatch(event: Event) returns (ok: bool)
      requires Valid() && InRange(event)
      modifies this`flow, this`finalOffset, this`reliableSize, this`cancelledRemotely, this`cancelledLocally,
               this`cancelErr, this`queuedStopSending, this`closeForShutdownErr, this`readChan, frameQueue
      ensures NetStep(old(N()), event) == if ok then Some(N()) else None
      ensures ok ==> Valid()
      ensures ok ==> readChan == (old(readChan) || Signals(event, old(N()), errorRead))
    {
      hide Valid, FrameStep, ResetStep, BytesAt, TooManyHoles, Update;
      ok := true;
      match event {
        case StreamFrameReceived(data, offset, fin, doneCb, violation) =>
          ok := HandleStreamFrame(data, offset, fin, doneCb, violation);
        case ResetReceived(finalSize, errorCode, newReliableSize, violation) =>
          ok := HandleResetStreamFrame(finalSize, errorCode, newReliableSize, violation);
        case ReadCancelled(errorCode) =>
          var _ := CancelRead(errorCode);
        case ShutDown =>
          CloseForShutdown();
      }
    }

    lemma FinalRecorded()
      requires Valid()
      ensures FinalKnown(N())
    {
    }

    /** What happens while a reader waits. The reader's own state is not touched. */
    method Apply(events: seq<Event>) returns (ok: bool)
      requires Valid() && (forall j :: 0 <= j < |events| ==> InRange(events[j]))
      modifies this`flow, this`finalOffset, this`reliableSize, this`cancelledRemotely, this`cancelledLocally,
               this`cancelErr, this`queuedStopSending, this`closeForShutdownErr, this`completed, this`completions,
               this`readChan, frameQueue
      ensures NetSteps(old(N()), events) == if ok then Some(N()) else None
      ensures ok ==> Valid()
      ensures ok && old(finalOffset) < MAX_BYTE_COUNT ==> finalOffset == old(finalOffset)
      ensures ok && old(Reported(errorRead)) ==> Reported(errorRead)
    {
      hide Valid, NetStep, Signals, Blocked, Unsignalled, Reported;
      var i := 0;
      while i < |events|
        invariant 0 <= i <= |events| && Valid() && (old(Reported(errorRead)) ==> Reported(errorRead))
        invariant old(finalOffset) < MAX_BYTE_COUNT ==> finalOffset == old(finalOffset)
        invariant NetSteps(old(N()), events[..i]) == Some(N())
      {
        NetStepsNext(old(N()), events, i);
        ok := ApplyOne(events[i]);
        if !ok {
          NetStepsFail(old(N()), events, i + 1);
          return;
        }
        i := i + 1;
      }
      assert events[..i] == events;
      ok := true;
    }

    /** There is a frame with unread data, or the next byte has not arrived. */
    ghost predicate Ready()
      reads this, frameQueue
    {
      && (currentFrame.Some? ==> Rest(R()) != [])
      && (currentFrame.None? ==> currentFrameDone.None? && !Arrived(frameQueue.history.offered, readPos))
      && (currentFrame.None? && !currentFrameIsLast ==> cancelledRemotely || readPos < finalOffset)
    }

    /** What happened since a Read at `pos` was called, and that it had to wait. */
    ghost predicate Since(net: Net, pos: nat, deadlineOver: bool, script: seq<Wakeup>, woken: nat)
      reads this, frameQueue
    {
      Stopped(net, pos, deadlineOver, script, woken, NoError, N(), readPos)
    }

    /** The inner loop of readImpl, which waits for the next frame. */
    method AwaitFrame(deadlineOver: bool, script: seq<Wakeup>, from: nat, ghost net: Net, ghost pos: nat)
      returns (err: ReadError, woken: nat)
      requires Valid() && Ready() && AllInRange(script) && Since(net, pos, deadlineOver, script, from)
      requires currentFrame.None? ==> readPos == pos
      modifies this`flow, this`finalOffset, this`reliableSize, this`cancelledRemotely, this`cancelledLocally,
               this`cancelErr, this`queuedStopSending, this`closeForShutdownErr, this`completed, this`completions,
               this`readChan, this`currentFrame, this`currentFrameDone, this`currentFrameIsLast, this`readPosInFrame,
               this`released, this`errorRead, frameQueue
      ensures err != Eof && Stopped(net, pos, deadlineOver, script, woken, err, N(), readPos)
      ensures err != ConnectionError ==> Valid()
      ensures err == NoError ==> Ready() && (currentFrame.Some? || currentFrameIsLast)
      ensures err != ConnectionError ==> Flagged(old(errorRead), err)
      ensures err != ConnectionError && old(Reported(errorRead)) ==> Reported(old(errorRead))
    {
      hide Valid, AllInRange, Rest, Arrived, WakeSteps, NetSteps, Waited, Reported, Blocked, Ready;
      woken := from;
      WaitedWithin(net, pos, ToRead, deadlineOver, script, woken);
      while true
        invariant Valid() && Ready() && woken <= |script| && Since(net, pos, deadlineOver, script, woken)
        invariant currentFrame.None? ==> readPos == pos
        invariant errorRead == old(errorRead) && (old(Reported(errorRead)) ==> Reported(errorRead))
        decreases |script| - woken
      {
        err := ReasonToStop(OverAt(deadlineOver, script, woken));
        if err != Waiting || woken == |script| {
          return;
        }
        EventsInRange(script, woken);
        WaitedOnce(net, pos, ToRead, deadlineOver, script, woken, N());
        WaitedWithin(net, pos, ToRead, deadlineOver, script, woken + 1);
        var ok := Wait(script[woken].events);
        woken := woken + 1;
        if !ok {
          err := ConnectionError;
          return;
        }
      }
    }

    /** The checks in the waiting loop: why it is left, or `Waiting` if it is not. */
    method ReasonToStop(deadlineOver: bool) returns (err: ReadError)
      requires Valid() && Ready()
      modifies this`errorRead
      ensures Valid() && Ready() && N() == old(N()) && Reason(N(), readPos, deadlineOver, err)
      ensures err in {NoError, CancelError, ShutdownError, DeadlineError, Waiting} && Flagged(old(errorRead), err)
      ensures currentFrame.Some? || currentFrameIsLast ==> err != Waiting
      ensures err == NoError ==> currentFrame.Some? || currentFrameIsLast
      ensures err == Waiting ==> !deadlineOver && Blocked(N(), readPos, ToRead)
    {
      hide Valid, Rest, Arrived;
      if closeForShutdownErr {
        return ShutdownError;
      }
      if cancelledLocally || RemoteCancellationEffective() {
        FlagErrorRead();
        return CancelError;
      }
      if deadlineOver {
        return DeadlineError;
      }
      if currentFrame.Some? || currentFrameIsLast {
        return NoError;
      }
      return Waiting;
    }

    /** A Read waits until it receives the signal, and then takes the next frame from the queue. */
    method Wait(events: seq<Event>) returns (ok: bool)
      requires Valid() && currentFrame.None? && !currentFrameIsLast
      requires forall j :: 0 <= j < |events| ==> InRange(events[j])
      modifies this`flow, this`finalOffset, this`reliableSize, this`cancelledRemotely, this`cancelledLocally,
               this`cancelErr, this`queuedStopSending, this`closeForShutdownErr, this`completed, this`completions,
               this`readChan, this`currentFrame, this`currentFrameDone, this`currentFrameIsLast, this`readPosInFrame,
               this`released, frameQueue
      ensures NetSteps(old(N()), events) == if ok then Some(N()) else None
      ensures ok ==> Valid() && Ready()
      ensures ok && old(Reported(errorRead)) ==> Reported(errorRead)
    {
      hide Valid, Rest, Arrived, NetSteps;
      ok := Apply(events);
      if ok {
        ReceiveSignal();
        NothingLeft(R());
        DequeueNextFrame();
      }
    }

    /** The reader has seen the end of the stream or its cancellation, now or before. */
    ghost predicate Flagged(before: bool, err: ReadError)
      reads this`errorRead
    {
      errorRead <==> before || err == Eof || err == CancelError
    }

    method FlagErrorRead()
      requires Valid()
      modifies this`errorRead
      ensures Valid() && errorRead
      ensures forall b :: old(Reported(b)) ==> Reported(b)
    {
      hide Faithful, Reassembling, Balanced;
      errorRead := true;
    }

    /** Copies `m` bytes of the current frame to the reader. */
    method Consume(m: nat) returns (p: seq<byte>)
      requires Valid() && currentFrame.Some? && m <= |Rest(R())|
      modifies this`readPosInFrame, this`readPos, this`readBytes
      ensures Valid()
      ensures p == old(Rest(R()))[..m] && readBytes == old(readBytes) + p
      ensures Rest(R()) == old(Rest(R()))[m..]
    {
      hide Faithful, Reassembling, Balanced;
      ConsumeFaithful(R(), frameQueue.history, m);
      WithinFrame(R(), frameQueue.history);
      p := currentFrame.value[readPosInFrame..][..m];
      readPosInFrame, readPos, readBytes := readPosInFrame + m, readPos + m, readBytes + p;
    }

    /** The current frame was the last one, and was read completely. */
    method Finish()
      requires Valid() && Rest(R()) == [] && currentFrameIsLast && (currentFrame.None? ==> currentFrameDone.None?)
      modifies this`currentFrame, this`released, this`errorRead
      ensures Valid() && AtEnd(R()) && errorRead
    {
      hide Faithful, Reassembling, Balanced;
      FinishFaithful(R(), frameQueue.history);
      Release(currentFrameDone);
      currentFrame, errorRead := None, true;
    }

    /** readImpl: reads up to `n` bytes. */
    method ReadImpl(n: nat, deadlineOver: bool, script: seq<Wakeup>)
      returns (p: seq<byte>, err: ReadError, ghost woken: nat)
      requires Valid() && AllInRange(script)
      modifies this, frameQueue
      ensures err != ConnectionError ==> Valid()
      ensures err != ConnectionError ==> readBytes == old(readBytes) + p
      ensures ReadReturns(old(N()), old(readPos), n, deadlineOver, script, woken, p, err, N())
      ensures err == Eof ==> AtEnd(R())
      ensures err != ConnectionError ==> Flagged(old(errorRead), err)
      ensures err != ConnectionError && old(Reported(errorRead)) ==> Reported(old(errorRead))
    {
      hide Valid, AllInRange, Arrived, Rest, WakeSteps, Waited, Copied, Blocked, Reported;
      p, woken := [], 0;
      PositionRead();
      NotWaited(N(), readPos, ToRead, deadlineOver, script);
      NothingCopied(N().offered, readPos);
      if currentFrameIsLast && currentFrame.None? {
        FlagErrorRead();
        ReadFacts([]);
        return [], Eof, 0;
      }
      if cancelledLocally || RemoteCancellationEffective() {
        FlagErrorRead();
        return [], CancelError, 0;
      }
      if closeForShutdownErr {
        return [], ShutdownError, 0;
      }
      p, err, woken := ReadLoop(n, deadlineOver, script);
    }

    /** The outer loop of readImpl. */
    method ReadLoop(n: nat, deadlineOver: bool, script: seq<Wakeup>)
      returns (p: seq<byte>, err: ReadError, ghost woken: nat)
      requires Valid() && AllInRange(script) && !AtEnd(R())
      modifies this, frameQueue
      ensures err != ConnectionError ==> Valid()
      ensures err != ConnectionError ==> readBytes == old(readBytes) + p
      ensures ReadReturns(old(N()), old(readPos), n, deadlineOver, script, woken, p, err, N())
      ensures err == Eof ==> AtEnd(R())
      ensures err != ConnectionError ==> Flagged(old(errorRead), err)
      ensures err != ConnectionError && old(Reported(errorRead)) ==> Reported(old(errorRead))
    {
      hide Valid, AllInRange, Arrived, Rest, Copied, Stopped, ReadReturns, Reported;
      ghost var net, pos, before := N(), readPos, readBytes;
      p := [];
      NothingStopped(net, pos, deadlineOver, script);
      ReadSoFar(before, p);
      var i: nat := 0;
      while |p| < n
        invariant Valid() && !AtEnd(R()) && |p| <= n
        invariant readBytes == before + p && readPos == pos + |p| && Copied(N().offered, pos, p)
        invariant Stopped(net, pos, deadlineOver, script, i, NoError, N(), readPos)
        invariant errorRead == old(errorRead) && (old(Reported(errorRead)) ==> Reported(errorRead))
        decreases n - |p|
      {
        var chunk, stop;
        chunk, stop, err, i := ReadRound(n - |p|, |p| > 0, deadlineOver, script, i, net, pos);
        p, woken := p + chunk, i;
        if err == ConnectionError {
          ConnectionClosed(net, pos, n, deadlineOver, script, woken, p, N());
          return;
        }
        ReadSoFar(before, p);
        if stop {
          StopsHere(net, pos, n, deadlineOver, script, woken, p, err, N());
          return;
        }
      }
      woken := i;
      if RemoteCancellationEffective() {
        FlagErrorRead();
        Cancelled(net, pos, deadlineOver, script, woken, N(), readPos);
        StopsHere(net, pos, n, deadlineOver, script, woken, p, CancelError, N());
        return p, CancelError, woken;
      }
      StopsHere(net, pos, n, deadlineOver, script, woken, p, NoError, N());
      return p, NoError, woken;
    }

    lemma ReadSoFar(before: seq<byte>, p: seq<byte>)
      requires Valid() && readBytes == before + p
      ensures readPos == |before| + |p| && Copied(N().offered, |before|, p)
    {
      hide Valid, Copied;
      PositionRead();
      assert (before + p)[|before|..] == p;
      ReadFacts(p);
    }

    /** One round of the loop in readImpl: a chunk of at most `room` bytes, and whether the loop is left. */
    method ReadRound(room: nat, some: bool, deadlineOver: bool, script: seq<Wakeup>, from: nat, ghost net: Net,
                     ghost pos: nat)
      returns (chunk: seq<byte>, stop: bool, err: ReadError, woken: nat)
      requires Valid() && !AtEnd(R()) && AllInRange(script) && Since(net, pos, deadlineOver, script, from) && room > 0
      requires !some ==> pos == readPos
      modifies this, frameQueue
      ensures err != ConnectionError ==> Valid() && readBytes == old(readBytes) + chunk && |chunk| <= room
      ensures Stopped(net, pos, deadlineOver, script, woken, err, N(), readPos)
      ensures !stop ==> err == NoError && chunk != [] && !AtEnd(R())
      ensures stop && err == NoError ==> some && !Arrived(N().offered, readPos)
      ensures err == Eof ==> AtEnd(R())
      ensures err != ConnectionError ==> Flagged(old(errorRead), err)
      ensures err != ConnectionError && old(Reported(errorRead)) ==> Reported(old(errorRead))
    {
      hide Valid, AllInRange, Arrived, Rest, WakeSteps, Waited, Blocked, CancellationEffective, Reported, Ready;
      chunk, stop, woken := [], true, from;
      NextFrame();
      if currentFrame.None? && some {
        err := if closeForShutdownErr then ShutdownError else NoError;
        return;
      }
      err, woken := AwaitFrame(deadlineOver, script, woken, net, pos);
      if err != NoError {
        return;
      }
      chunk, stop := TakeChunk(room);
      if stop {
        err := Eof;
      }
    }

    /** If the current frame was read completely, the next one is taken from the queue. */
    method NextFrame()
      requires Valid() && !AtEnd(R())
      modifies this`currentFrame, this`currentFrameDone, this`currentFrameIsLast, this`readPosInFrame, this`released,
               frameQueue
      ensures Valid() && Ready() && N() == old(N())
      ensures currentFrame.None? ==> !Arrived(N().offered, readPos)
    {
      hide Valid, Arrived, Rest;
      var done := FrameDone();
      if done {
        DequeueNextFrame();
      }
    }

    /** The part of the round behind the waiting loop. */
    method TakeChunk(room: nat) returns (chunk: seq<byte>, end: bool)
      requires Valid() && Ready() && (currentFrame.Some? || currentFrameIsLast) && room > 0
      modifies this`readPosInFrame, this`readPos, this`readBytes, this`currentFrame, this`released, this`errorRead
      ensures Valid() && N() == old(N()) && readBytes == old(readBytes) + chunk && |chunk| <= room
      ensures !end ==> chunk != [] && !AtEnd(R())
      ensures end ==> AtEnd(R()) && readPos == finalOffset < MAX_BYTE_COUNT
      ensures errorRead <==> old(errorRead) || end
      ensures forall b :: old(Reported(b)) ==> Reported(b)
    {
      hide Valid, Arrived, Rest;
      chunk := [];
      if currentFrame.Some? {
        var rest := Unread();
        var m := if room < |rest| then room else |rest|;
        chunk := Consume(m);
      } else {
        NothingLeft(R());
      }
      end := FrameDone();
      if end && currentFrameIsLast {
        Finish();
        PositionRead();
        ReadFacts([]);
      } else {
        end := false;
      }
    }

    /** There is no unread data in the current frame. */
    method FrameDone() returns (done: bool)
      requires Valid()
      ensures done <==> Rest(R()) == []
      ensures !done ==> currentFrame.Some?
    {
      hide Reassembling, Balanced;
      done := currentFrame.None? || readPosInFrame >= |currentFrame.value|;
    }

    method Unread() returns (rest: seq<byte>)
      requires Valid() && currentFrame.Some?
      ensures rest == Rest(R())
    {
      hide Reassembling, Balanced;
      rest := currentFrame.value[readPosInFrame..];
    }

    /** Read: what it returns continues what was read before, and io.EOF is returned only once the whole stream was
        read. */
    method Read(n: nat, deadlineOver: bool, script: seq<Wakeup>)
      returns (p: seq<byte>, err: ReadError, newly: bool, ghost woken: nat)
      requires Valid() && AllInRange(script)
      modifies this, frameQueue
      ensures err != ConnectionError ==> Valid()
      ensures err != ConnectionError ==> readBytes == old(readBytes) + p
      ensures ReadReturns(old(N()), |old(readBytes)|, n, deadlineOver, script, woken, p, err, N())
      ensures err == Eof ==> completed
      ensures err != ConnectionError ==> Flagged(old(errorRead), err) && Reported(errorRead)
      ensures err != ConnectionError && old(Reported(errorRead)) ==>
                (newly <==> && (err == Eof || err == CancelError) && !old(errorRead)
                            && finalOffset < MAX_BYTE_COUNT && !cancelledLocally)
    {
      hide Valid, AllInRange, ReadReturns;
      newly := false;
      PositionRead();
      p, err, woken := ReadImpl(n, deadlineOver, script);
      if err == ConnectionError {
        return;
      }
      ReadFacts([]);
      newly := IsNewlyCompleted();
    }

    lemma PositionRead()
      requires Valid()
      ensures readPos == |readBytes|
    {
    }

    lemma ReadFacts(p: seq<byte>)
      requires Valid() && |p| <= |readBytes| && readBytes[|readBytes| - |p|..] == p
      ensures Copied(frameQueue.history.offered, |readBytes| - |p|, p)
      ensures AtEnd(R()) ==> |readBytes| == finalOffset < MAX_BYTE_COUNT
    {
      var pos, h := |readBytes| - |p|, frameQueue.history;
      forall i | 0 <= i < |p|
        ensures (pos + i, p[i]) in h.offered
      {
        assert (0 + (pos + i), h.delivered[pos + i]) in h.offered;
      }
    }

    /** peekImpl: fills up to `n` bytes without consuming them. */
    method Peek(n: nat, deadlineOver: bool, script: seq<Wakeup>)
      returns (b: seq<byte>, err: ReadError, ghost woken: nat)
      requires Valid() && AllInRange(script)
      modifies this, frameQueue
      ensures err != ConnectionError ==> Valid() && readBytes == old(readBytes)
      ensures PeekReturns(old(N()), |old(readBytes)|, n, deadlineOver, script, woken, b, err, N())
      ensures errorRead == old(errorRead)
      ensures err != ConnectionError && old(Reported(errorRead)) ==> Reported(errorRead)
    {
      hide Reported, Valid, AllInRange, Copied, Arrived, AllArrived, Rest, WakeSteps, Waited, Blocked,
           CancellationEffective;
      PositionRead();
      NotWaited(N(), readPos, ToPeek(n), deadlineOver, script);
      NothingCopied(frameQueue.history.offered, |readBytes|);
      woken := 0;
      if n == 0 {
        return [], NoError, 0;
      }
      var i := 0;
      while true
        invariant Valid() && readBytes == old(readBytes) && readPos == |readBytes| && i <= |script| && woken == i
        invariant Waited(old(N()), |readBytes|, ToPeek(n), deadlineOver, script, i)
        invariant WakeSteps(old(N()), script[..i]) == Some(N())
        invariant errorRead == old(errorRead) && (old(Reported(errorRead)) ==> Reported(errorRead))
        decreases |script| - i
      {
        var stop;
        b, err, stop := PeekRound(n, OverAt(deadlineOver, script, i));
        if stop {
          return;
        }
        if i == |script| {
          NothingCopied(frameQueue.history.offered, |readBytes|);
          return [], Waiting, i;
        }
        EventsInRange(script, i);
        WaitedOnce(old(N()), readPos, ToPeek(n), deadlineOver, script, i, N());
        var ok := PeekWait(script[i].events);
        i, woken := i + 1, i + 1;
        if !ok {
          return [], ConnectionError, i;
        }
      }
    }

    /** A Peek waits until it receives the signal, and then takes the next frame from the queue, if it needs one. */
    method PeekWait(events: seq<Event>) returns (ok: bool)
      requires Valid() && !currentFrameIsLast && forall j :: 0 <= j < |events| ==> InRange(events[j])
      modifies this`flow, this`finalOffset, this`reliableSize, this`cancelledRemotely, this`cancelledLocally,
               this`cancelErr, this`queuedStopSending, this`closeForShutdownErr, this`completed, this`completions,
               this`readChan, this`currentFrame, this`currentFrameDone, this`currentFrameIsLast, this`readPosInFrame,
               this`released, frameQueue
      ensures NetSteps(old(N()), events) == if ok then Some(N()) else None
      ensures ok ==> Valid()
      ensures ok && old(Reported(errorRead)) ==> Reported(errorRead)
    {
      hide Valid, Rest, Arrived, NetSteps;
      ok := Apply(events);
      if ok {
        ReceiveSignal();
        var done := FrameDone();
        if done {
          DequeueNextFrame();
        }
      }
    }

    /** One round of the loop in peekImpl, up to where it waits. */
    method PeekRound(n: nat, deadlineOver: bool) returns (b: seq<byte>, err: ReadError, stop: bool)
      requires Valid() && n > 0
      modifies this`currentFrame, this`currentFrameDone, this`currentFrameIsLast, this`readPosInFrame, this`released,
               frameQueue
      ensures Valid() && readBytes == old(readBytes) && readPos == old(readPos) && N() == old(N())
      ensures err != Waiting && PeekFinds(N(), readPos, n, deadlineOver, b, if stop then err else Waiting)
      ensures !stop ==> b == [] && !deadlineOver && !currentFrameIsLast && PeekMustWait(n)
    {
      hide Valid, Copied, Arrived, AllArrived, Rest, Blocked;
      NothingCopied(frameQueue.history.offered, |readBytes|);
      PositionRead();
      b, stop := [], true;
      if currentFrameIsLast && currentFrame.None? {
        NothingLeft(R());
        EndFacts();
        err := Eof;
        return;
      }
      if cancelledLocally || RemoteCancellationEffective() {
        err := CancelError;
        return;
      }
      if closeForShutdownErr {
        err := ShutdownError;
        return;
      }
      if deadlineOver {
        err := DeadlineError;
        return;
      }
      b, err, stop := PeekData(n);
    }

    /** The part of the round behind the checks for errors. */
    method PeekData(n: nat) returns (b: seq<byte>, err: ReadError, stop: bool)
      requires Valid() && n > 0 && !AtEnd(R()) && !closeForShutdownErr && !cancelledLocally
      requires !RemoteCancellationEffective()
      modifies this`currentFrame, this`currentFrameDone, this`currentFrameIsLast, this`readPosInFrame, this`released,
               frameQueue
      ensures Valid() && frameQueue.history.offered == old(frameQueue.history.offered)
      ensures |b| <= n && Copied(frameQueue.history.offered, |readBytes|, b)
      ensures err == NoError && stop ==> |b| == n
      ensures err == Eof ==> |readBytes| + |b| == finalOffset < MAX_BYTE_COUNT
      ensures err == CancelError ==> cancelledRemotely && |readBytes| + |b| == reliableSize
      ensures !stop ==> b == [] && !currentFrameIsLast && PeekMustWait(n)
      ensures err in {NoError, Eof, CancelError}
    {
      hide Valid, Copied, Arrived, AllArrived, Rest;
      var done := FrameDone();
      if done {
        DequeueNextFrame();
      }
      NothingCopied(frameQueue.history.offered, |readBytes|);
      stop := true;
      done := FrameDone();
      if !done {
        b, err := PeekNow(n);
        if err != Waiting {
          return;
        }
      } else {
        FirstMissing(frameQueue.history, readPos, readPos + n);
        FirstMissing(frameQueue.history, readPos, reliableSize);
        FirstMissing(frameQueue.history, readPos, finalOffset);
      }
      b := [];
      if currentFrameIsLast || readPos >= finalOffset {
        EndFacts();
        err := Eof;
        return;
      }
      err, stop := NoError, false;
    }

    /** The part of peekImpl that looks at the current frame and at the queue; `Waiting` if there is not enough data
        yet. */
    method PeekNow(n: nat) returns (b: seq<byte>, err: ReadError)
      requires Valid() && currentFrame.Some? && Rest(R()) != [] && n > 0 && !RemoteCancellationEffective()
      ensures |b| <= n && Copied(frameQueue.history.offered, |readBytes|, b)
      ensures err == NoError ==> |b| == n
      ensures err == Eof ==> |readBytes| + |b| == finalOffset < MAX_BYTE_COUNT
      ensures err == CancelError ==> |readBytes| + |b| == reliableSize
      ensures err in {NoError, Eof, CancelError, Waiting}
      ensures err == Waiting ==>
                && !currentFrameIsLast
                && readPos < finalOffset
                && !AllArrived(frameQueue.history.offered, readPos, readPos + n)
      ensures err == Waiting && cancelledRemotely && readPos + n > reliableSize ==>
                !AllArrived(frameQueue.history.offered, readPos, reliableSize)
      ensures err == Waiting && readPos + n > finalOffset ==>
                !AllArrived(frameQueue.history.offered, readPos, finalOffset)
      ensures err == CancelError ==> cancelledRemotely
    {
      hide Faithful, Reassembling, Balanced, Copied, Arrived;
      ghost var r, h := R(), frameQueue.history;
      DeliveredFacts(frameQueue);
      DeliveredBelowFinal(r, h);
      var rest := Unread();
      var available := |rest|;
      NothingCopied(h.offered, |h.delivered|);
      if available >= n {
        PeekFaithful(r, h, n, []);
        assert rest[..n] + [] == rest[..n];
        return rest[..n], NoError;
      }
      var offset := readPos + available;
      var ok, more := frameQueue.Peek(offset, n - available);
      if ok {
        PeekFaithful(r, h, available, more);
        assert rest[..available] == rest;
        return rest + more, NoError;
      }
      if currentFrameIsLast {
        PeekFaithful(r, h, available, []);
        assert rest[..available] + [] == rest;
        LastFacts(r, h);
        return rest, Eof;
      }
      if cancelledRemotely && readPos + n > reliableSize {
        b, ok := PeekUpTo(rest, reliableSize - readPos);
        if ok {
          return b, CancelError;
        }
      }
      if readPos + n > finalOffset {
        b, ok := PeekUpTo(rest, finalOffset - readPos);
        if ok {
          return b, Eof;
        }
      }
      NothingCopied(h.offered, |readBytes|);
      return [], Waiting;
    }

    /** Peeks exactly `total` bytes, if they have arrived. */
    method PeekUpTo(rest: seq<byte>, total: nat) returns (b: seq<byte>, ok: bool)
      requires Valid() && currentFrame.Some? && rest == Rest(R())
      ensures ok ==>
                |b| == total && Copied(frameQueue.history.offered, |readBytes|, b) && readPos + total < MAX_BYTE_COUNT
      ensures !ok ==> !AllArrived(frameQueue.history.offered, readPos, readPos + total)
    {
      hide Faithful, Reassembling, Balanced, Copied, AllArrived, Arrived;
      ghost var r, h := R(), frameQueue.history;
      DeliveredFacts(frameQueue);
      DeliveredBelowFinal(r, h);
      NothingCopied(h.offered, |h.delivered|);
      if total <= |rest| {
        PeekFaithful(r, h, total, []);
        assert rest[..total] + [] == rest[..total];
        return rest[..total], true;
      }
      var more;
      ok, more := frameQueue.Peek(readPos + |rest|, total - |rest|);
      b := rest + more;
      MissingLater(h, readPos, readPos + |rest|, readPos + total);
      if ok {
        NeverComplete(frameQueue, readPos + total);
        PeekFaithful(r, h, |rest|, more);
        assert rest[..|rest|] == rest;
      }
    }

    lemma EndFacts()
      requires Valid() && Rest(R()) == [] && (currentFrameIsLast || readPos >= finalOffset)
      ensures |readBytes| == finalOffset < MAX_BYTE_COUNT
    {
      DeliveredFacts(frameQueue);
      DeliveredBelowFinal(R(), frameQueue.history);
    }
  }

  lemma MissingLater(h: History, lo: nat, mid: nat, hi: nat)
    requires lo <= mid
    ensures !AllArrived(h.offered, mid, hi) ==> !AllArrived(h.offered, lo, hi)
  {
  }

  lemma FirstMissing(h: History, pos: nat, end: nat)
    ensures !Arrived(h.offered, pos) && pos < end ==> !AllArrived(h.offered, pos, end)
  {
  }

  /** The last byte of the offset range never arrives. */
  lemma NeverComplete(q: FrameSorter, end: nat)
    requires q.Valid() && q.readPos <= end && AllArrived(q.history.offered, q.readPos, end)
    ensures end < MAX_BYTE_COUNT
  {
    var gap := q.gaps[|q.gaps| - 1];
    assert InGap(q.gaps, MAX_BYTE_COUNT - 1);
    assert !Arrived(q.history.offered, MAX_BYTE_COUNT - 1);
  }

  lemma NothingCopied(offered: set<(nat, byte)>, pos: nat)
    ensures Copied(offered, pos, [])
  {
  }

  lemma LastFacts(r: Reader, h: History)
    requires Faithful(r, h) && r.isLast
    ensures |r.readBytes| + |Rest(r)| == r.finalOffset < MAX_BYTE_COUNT
  {
  }

  lemma WithinFrame(r: Reader, h: History)
    requires Faithful(r, h)
    ensures r.current.Some? ==> r.posInFrame <= |r.current.value|
  {
  }

  lemma EventsInRange(script: seq<Wakeup>, i: nat)
    requires AllInRange(script) && i < |script|
    ensures forall j :: 0 <= j < |script[i].events| ==> InRange(script[i].events[j])
  {
  }

  lemma NothingLeft(r: Reader)
    ensures r.current.None? ==> Rest(r) == []
  {
  }

  lemma FinalIsStable(r: Reader, h: History, offset: nat, fin: bool, violation: bool)
    requires Faithful(r, h) && Update(r.flow, offset, fin, violation).Some?
    ensures r.finalOffset < MAX_BYTE_COUNT && fin ==> offset == r.finalOffset
  {
  }

  lemma DeliveredFacts(q: FrameSorter)
    requires q.Valid()
    ensures |q.history.delivered| == q.readPos < MAX_BYTE_COUNT
    ensures Copied(q.history.offered, 0, q.history.delivered)
  {
  }

  lemma RestEmpty(r: Reader, h: History)
    requires Faithful(r, h) && Rest(r) == []
    ensures h.delivered == r.readBytes
  {
    assert r.readBytes + [] == r.readBytes;
  }
}

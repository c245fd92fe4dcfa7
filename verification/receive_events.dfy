/** What can happen to a receive stream, what it does to the stream, and what a Read or Peek may then return. */
module ReceiveEvents {
  import opened Protocol
  import opened ByteIntervals
  import opened FrameQueue
  import opened Reassembly
  import opened FrameSorting
  import opened ReceiveLedger
  import ReassemblyRuns

  /** Everything that can happen to the stream while a Read or Peek waits. */
  datatype Event =
    | StreamFrameReceived(data: seq<byte>, offset: nat, fin: bool, doneCb: Option<Callback>, violation: bool)
    | ResetReceived(finalSize: nat, errorCode: nat, reliableSize: nat, violation: bool)
    | ReadCancelled(errorCode: nat)
    | ShutDown

  ghost predicate InRange(e: Event) {
    match e
    case StreamFrameReceived(data, offset, _, _, _) => offset + |data| < MAX_BYTE_COUNT
    case ResetReceived(finalSize, _, _, _) => finalSize < MAX_BYTE_COUNT
    case _ => true
  }

  /** What happens until a waiting call is woken up, and whether its deadline is over by then. */
  datatype Wakeup = Wakeup(events: seq<Event>, deadlineOver: bool)

  /** The bytes that an event brings. */
  ghost function EventBytes(e: Event): set<(nat, byte)> {
    match e
    case StreamFrameReceived(data, offset, _, _, _) => BytesAt(data, offset)
    case _ => {}
  }

  ghost function EventsBytes(events: seq<Event>): set<(nat, byte)> {
    if events == [] then {} else EventsBytes(events[..|events| - 1]) + EventBytes(events[|events| - 1])
  }

  ghost function ScriptBytes(script: seq<Wakeup>): set<(nat, byte)> {
    if script == [] then {} else ScriptBytes(script[..|script| - 1]) + EventsBytes(script[|script| - 1].events)
  }

  ghost predicate AllInRange(script: seq<Wakeup>) {
    forall i, j :: 0 <= i < |script| && 0 <= j < |script[i].events| ==> InRange(script[i].events[j])
  }

  /** `Waiting` means that the call is still blocked, `ConnectionError` that a frame closed the connection meanwhile. */
  datatype ReadError = NoError | Eof | CancelError | ShutdownError | DeadlineError | Waiting | ConnectionError

  /** The part of the stream that events change. */
  datatype Net = Net(
    flow: Flow, finalOffset: nat, cancelledLocally: bool, cancelledRemotely: bool, reliableSize: nat, shutdown: bool,
    offered: set<(nat, byte)>)

  ghost function NewNet(): Net {
    Net(Flow(0, false), MAX_BYTE_COUNT, false, false, 0, false, {})
  }

  /** What has arrived has more holes than the frame sorter tolerates. */
  ghost predicate TooManyHoles(offered: set<(nat, byte)>) {
    exists gaps :: Exact(gaps, offered) && |gaps| > MAX_STREAM_FRAME_SORTER_GAPS
  }

  /** The first reset sets the reliable size, later ones can only lower it. */
  function LowerReliableSize(cancelled: bool, before: nat, size: nat): nat {
    if (!cancelled && before == 0) || size < before then size else before
  }

  /** What a STREAM frame does; None if it is an error that closes the connection: the flow controller refuses the
      offset, or, unless the data is dropped because reading was cancelled, there are too many holes. */
  ghost function FrameStep(net: Net, data: seq<byte>, offset: nat, fin: bool, violation: bool): Option<Net> {
    var end, offered := offset + |data|, net.offered + BytesAt(data, offset);
    var updated := Update(net.flow, end, fin, violation);
    if updated.None? || (!net.cancelledLocally && TooManyHoles(offered)) then None
    else Some(net.(flow := updated.value, finalOffset := if fin then end else net.finalOffset,
                   offered := if net.cancelledLocally then net.offered else offered))
  }

  /** What a RESET_STREAM or RESET_STREAM_AT frame does; None if the flow controller refuses the final size. */
  function ResetStep(net: Net, finalSize: nat, size: nat, violation: bool): Option<Net> {
    var updated := Update(net.flow, finalSize, true, violation);
    if net.shutdown then Some(net)
    else if updated.None? then None
    else Some(net.(flow := updated.value, finalOffset := finalSize,
                   reliableSize := LowerReliableSize(net.cancelledRemotely, net.reliableSize, size),
                   cancelledRemotely := net.cancelledRemotely || !net.cancelledLocally))
  }

  ghost function NetStep(net: Net, e: Event): Option<Net> {
    match e
    case StreamFrameReceived(data, offset, fin, _, violation) => FrameStep(net, data, offset, fin, violation)
    case ResetReceived(finalSize, _, size, violation) => ResetStep(net, finalSize, size, violation)
    case ReadCancelled(_) => Some(net.(cancelledLocally := net.cancelledLocally || !net.shutdown))
    case ShutDown => Some(net.(shutdown := true))
  }

  ghost function NetSteps(net: Net, events: seq<Event>): Option<Net> {
    if events == [] then Some(net) else
      var before := NetSteps(net, events[..|events| - 1]);
      if before.None? then None else NetStep(before.value, events[|events| - 1])
  }

  /** Everything that happens during several wake-ups. */
  ghost function WakeSteps(net: Net, script: seq<Wakeup>): Option<Net> {
    if script == [] then Some(net) else
      var before := WakeSteps(net, script[..|script| - 1]);
      if before.None? then None else NetSteps(before.value, script[|script| - 1].events)
  }

  /** Whether there are too many holes is decided by the gaps of the frame sorter. */
  lemma GapsDecide(gaps: seq<Interval>, offered: set<(nat, byte)>)
    requires Exact(gaps, offered)
    ensures TooManyHoles(offered) <==> |gaps| > MAX_STREAM_FRAME_SORTER_GAPS
  {
    forall gaps' | Exact(gaps', offered)
      ensures gaps' == gaps
    {
      assert forall x: nat :: InGap(gaps, x) <==> InGap(gaps', x);
      ReassemblyRuns.GapsAreCanonical(gaps, gaps');
    }
  }

  lemma WakeStepsNext(net: Net, script: seq<Wakeup>, i: nat)
    requires i < |script| && WakeSteps(net, script[..i]).Some?
    ensures WakeSteps(net, script[..i + 1]) == NetSteps(WakeSteps(net, script[..i]).value, script[i].events)
  {
    assert script[..i + 1][..i] == script[..i];
  }

  lemma NetStepsNext(net: Net, events: seq<Event>, i: nat)
    requires i < |events| && NetSteps(net, events[..i]).Some?
    ensures NetSteps(net, events[..i + 1]) == NetStep(NetSteps(net, events[..i]).value, events[i])
  {
    assert events[..i + 1][..i] == events[..i];
  }

  lemma {:induction false} NetStepsFail(net: Net, events: seq<Event>, i: nat)
    requires i <= |events| && NetSteps(net, events[..i]).None?
    ensures NetSteps(net, events).None?
    decreases |events| - i
  {
    if i == |events| {
      assert events[..i] == events;
    } else {
      assert events[..i + 1][..i] == events[..i];
      NetStepsFail(net, events, i + 1);
    }
  }

  /** What a call wants. */
  datatype Wants = ToRead | ToPeek(n: nat)

  predicate CancellationEffective(net: Net, pos: nat) {
    net.cancelledLocally || (net.cancelledRemotely && pos >= net.reliableSize)
  }

  /** There is nothing for a call to return. For a Read: the next byte has not arrived, the stream has not ended, and is
      neither cancelled nor shut down. For a Peek: also, not all bytes up to the reliable size of a reset or up to the
      end of the stream have arrived, if it asks for more. */
  ghost predicate Blocked(net: Net, pos: nat, wants: Wants) {
    && !net.shutdown && !CancellationEffective(net, pos)
    && match wants
       case ToRead => !Arrived(net.offered, pos) && (net.cancelledRemotely || pos < net.finalOffset)
       case ToPeek(n) =>
         && !AllArrived(net.offered, pos, pos + n)
         && (net.cancelledRemotely && pos + n > net.reliableSize ==> !AllArrived(net.offered, pos, net.reliableSize))
         && (pos + n > net.finalOffset ==> !AllArrived(net.offered, pos, net.finalOffset))
  }

  predicate OverAt(deadlineOver: bool, script: seq<Wakeup>, i: nat)
    requires i <= |script|
  {
    if i == 0 then deadlineOver else script[i - 1].deadlineOver
  }

  /** The call waited `woken` times, and each time it had to: there was nothing to return, and time was left. */
  ghost predicate Waited(net: Net, pos: nat, wants: Wants, deadlineOver: bool, script: seq<Wakeup>, woken: nat) {
    && woken <= |script|
    && forall i :: 0 <= i < woken ==> BlockedAt(net, pos, wants, deadlineOver, script, i)
  }

  ghost predicate BlockedAt(net: Net, pos: nat, wants: Wants, deadlineOver: bool, script: seq<Wakeup>, i: nat)
    requires i < |script|
  {
    && !OverAt(deadlineOver, script, i)
    && WakeSteps(net, script[..i]).Some? && Blocked(WakeSteps(net, script[..i]).value, pos, wants)
  }

  /** Why a Read that stops at `pos` returns an error. */
  ghost predicate Reason(net: Net, pos: nat, deadlineOver: bool, err: ReadError) {
    match err
    case Eof => pos == net.finalOffset < MAX_BYTE_COUNT
    case CancelError => CancellationEffective(net, pos)
    case ShutdownError => net.shutdown
    case DeadlineError => deadlineOver
    case Waiting => Blocked(net, pos, ToRead)
    case _ => true
  }

  /** A Read that started at `pos` has waited, and stops at `pos'` with an error: only where it started is it still
      waiting, and only after all wake-ups. */
  ghost predicate Stopped(net: Net, pos: nat, deadlineOver: bool, script: seq<Wakeup>, woken: nat, err: ReadError,
                          net': Net, pos': nat)
  {
    && Waited(net, pos, ToRead, deadlineOver, script, woken)
    && WakeSteps(net, script[..woken]) == (if err == ConnectionError then None else Some(net'))
    && Reason(net', pos', OverAt(deadlineOver, script, woken), err)
    && (err == Waiting ==> pos' == pos && woken == |script|)
  }

  /** What a Read of up to `n` bytes at `pos` returns, after `woken` of the wake-ups: the bytes that follow. It stops
      before `n` bytes only where the next byte is missing, or with an error that the stream gives reason for. */
  ghost predicate ReadReturns(net: Net, pos: nat, n: nat, deadlineOver: bool, script: seq<Wakeup>, woken: nat,
                              p: seq<byte>, err: ReadError, net': Net)
  {
    && Stopped(net, pos, deadlineOver, script, woken, err, net', pos + |p|)
    && (err != ConnectionError ==> |p| <= n && Copied(net'.offered, pos, p))
    && (err == NoError ==> (n > 0 ==> p != []) && (|p| < n ==> !Arrived(net'.offered, pos + |p|)))
  }

  lemma NothingStopped(net: Net, pos: nat, deadlineOver: bool, script: seq<Wakeup>)
    ensures Stopped(net, pos, deadlineOver, script, 0, NoError, net, pos)
  {
    NotWaited(net, pos, ToRead, deadlineOver, script);
  }

  lemma Cancelled(net: Net, pos: nat, deadlineOver: bool, script: seq<Wakeup>, woken: nat, net': Net, pos': nat)
    requires Stopped(net, pos, deadlineOver, script, woken, NoError, net', pos') && CancellationEffective(net', pos')
    ensures Stopped(net, pos, deadlineOver, script, woken, CancelError, net', pos')
  {
  }

  lemma ConnectionClosed(net: Net, pos: nat, n: nat, deadlineOver: bool, script: seq<Wakeup>, woken: nat, p: seq<byte>,
                         net': Net)
    requires exists net'', pos' :: Stopped(net, pos, deadlineOver, script, woken, ConnectionError, net'', pos')
    ensures ReadReturns(net, pos, n, deadlineOver, script, woken, p, ConnectionError, net')
  {
  }

  lemma StopsHere(net: Net, pos: nat, n: nat, deadlineOver: bool, script: seq<Wakeup>, woken: nat, p: seq<byte>,
                  err: ReadError, net': Net)
    requires Stopped(net, pos, deadlineOver, script, woken, err, net', pos + |p|) && err != ConnectionError
    requires |p| <= n && Copied(net'.offered, pos, p)
    requires err == NoError ==> (n > 0 ==> p != []) && (|p| < n ==> !Arrived(net'.offered, pos + |p|))
    ensures ReadReturns(net, pos, n, deadlineOver, script, woken, p, err, net')
  {
  }

  /** What a Peek for `n` bytes finds: all of them, or those up to the end or up to the reliable size. */
  ghost predicate PeekFinds(net: Net, pos: nat, n: nat, deadlineOver: bool, b: seq<byte>, err: ReadError) {
    && |b| <= n && Copied(net.offered, pos, b)
    && match err
       case NoError => |b| == n
       case Eof => pos + |b| == net.finalOffset < MAX_BYTE_COUNT
       case CancelError =>
         if b == [] then CancellationEffective(net, pos) else net.cancelledRemotely && pos + |b| == net.reliableSize
       case ShutdownError => net.shutdown
       case DeadlineError => b == [] && deadlineOver
       case Waiting => b == [] && Blocked(net, pos, ToPeek(n))
       case ConnectionError => false
  }

  /** What a Peek for `n` bytes at `pos` returns, after `woken` of the wake-ups. */
  ghost predicate PeekReturns(net: Net, pos: nat, n: nat, deadlineOver: bool, script: seq<Wakeup>, woken: nat,
                              b: seq<byte>, err: ReadError, net': Net)
  {
    && Waited(net, pos, ToPeek(n), deadlineOver, script, woken)
    && WakeSteps(net, script[..woken]) == (if err == ConnectionError then None else Some(net'))
    && (err != ConnectionError ==> PeekFinds(net', pos, n, OverAt(deadlineOver, script, woken), b, err))
    && (err == Waiting ==> woken == |script|)
  }

  /** Nothing that has arrived is lost, and what arrives is in the frames. */
  lemma NetStepBytes(net: Net, e: Event)
    requires NetStep(net, e).Some?
    ensures net.offered <= NetStep(net, e).value.offered <= net.offered + EventBytes(e)
  {
  }

  lemma {:induction false} NetStepsBytes(net: Net, events: seq<Event>)
    requires NetSteps(net, events).Some?
    ensures net.offered <= NetSteps(net, events).value.offered <= net.offered + EventsBytes(events)
  {
    hide NetStep, EventBytes;
    if events != [] {
      NetStepsBytes(net, events[..|events| - 1]);
      NetStepBytes(NetSteps(net, events[..|events| - 1]).value, events[|events| - 1]);
    }
  }

  lemma {:induction false} WakeStepsBytes(net: Net, script: seq<Wakeup>, woken: nat)
    requires woken <= |script| && WakeSteps(net, script[..woken]).Some?
    ensures net.offered <= WakeSteps(net, script[..woken]).value.offered <= net.offered + ScriptBytes(script)
  {
    hide NetSteps, EventsBytes;
    if woken > 0 {
      assert script[..woken][..woken - 1] == script[..woken - 1];
      WakeStepsBytes(net, script, woken - 1);
      NetStepsBytes(WakeSteps(net, script[..woken - 1]).value, script[woken - 1].events);
      ScriptPart(script, woken - 1);
    }
  }

  lemma {:induction false} ScriptPart(script: seq<Wakeup>, i: nat)
    requires i < |script|
    ensures EventsBytes(script[i].events) <= ScriptBytes(script)
  {
    if i < |script| - 1 {
      ScriptPart(script[..|script| - 1], i);
    }
  }

  /** One more wake-up. */
  lemma WaitedOnce(net: Net, pos: nat, wants: Wants, deadlineOver: bool, script: seq<Wakeup>, woken: nat, now: Net)
    requires Waited(net, pos, wants, deadlineOver, script, woken) && woken < |script|
    requires WakeSteps(net, script[..woken]) == Some(now)
    requires !OverAt(deadlineOver, script, woken) && Blocked(now, pos, wants)
    ensures Waited(net, pos, wants, deadlineOver, script, woken + 1)
    ensures WakeSteps(net, script[..woken + 1]) == NetSteps(now, script[woken].events)
  {
    hide WakeSteps, Blocked, NetSteps;
    WakeStepsNext(net, script, woken);
  }

  lemma WaitedWithin(net: Net, pos: nat, wants: Wants, deadlineOver: bool, script: seq<Wakeup>, woken: nat)
    requires Waited(net, pos, wants, deadlineOver, script, woken)
    ensures woken <= |script|
  {
  }

  lemma NotWaited(net: Net, pos: nat, wants: Wants, deadlineOver: bool, script: seq<Wakeup>)
    ensures Waited(net, pos, wants, deadlineOver, script, 0) && WakeSteps(net, script[..0]) == Some(net)
  {
  }

  /** The events that signal. */
  predicate Signals(e: Event, net: Net, errorRead: bool) {
    match e
    case StreamFrameReceived(_, _, _, _, _) => !net.cancelledLocally
    case ResetReceived(_, _, _, _) => !net.shutdown && !net.cancelledLocally && !net.cancelledRemotely
    case ReadCancelled(_) => !net.shutdown && !net.cancelledLocally && !net.cancelledRemotely && !errorRead
    case ShutDown => true
  }

  /** The events that let a waiting call return without waking it up: CancelRead after the peer has reset the stream,
      and another reset that lowers the reliable size, for a Read to what was read, for a Peek to where everything has
      arrived, if that is less than what it asks for. */
  ghost predicate Unsignalled(e: Event, net: Net, errorRead: bool, pos: nat, wants: Wants) {
    || (e.ReadCancelled? && (net.cancelledRemotely || errorRead))
    || (e.ResetReceived? && net.cancelledRemotely
        && match wants
           case ToRead => e.reliableSize <= pos
           case ToPeek(n) =>
             && e.reliableSize < net.reliableSize && e.reliableSize < pos + n
             && AllArrived(net.offered, pos, e.reliableSize))
  }

  /** A final offset that is known is the one that the flow controller has recorded. */
  predicate FinalKnown(net: Net) {
    && net.finalOffset <= MAX_BYTE_COUNT
    && (net.cancelledRemotely ==> net.finalOffset < MAX_BYTE_COUNT)
    && (net.finalOffset < MAX_BYTE_COUNT ==> net.flow == Flow(net.finalOffset, true))
  }

  lemma FinalStaysKnown(net: Net, e: Event)
    requires FinalKnown(net) && InRange(e) && NetStep(net, e).Some?
    ensures FinalKnown(NetStep(net, e).value)
    ensures net.finalOffset < MAX_BYTE_COUNT ==> NetStep(net, e).value.finalOffset == net.finalOffset
  {
    hide TooManyHoles, BytesAt;
  }

  /** A call that has to wait is signalled by every event that lets it return, except exactly by the unsignalled ones.
      */
  lemma SignalledExcept(net: Net, e: Event, errorRead: bool, pos: nat, wants: Wants)
    requires FinalKnown(net) && InRange(e) && Blocked(net, pos, wants) && NetStep(net, e).Some?
    ensures !Blocked(NetStep(net, e).value, pos, wants) && !Signals(e, net, errorRead)
            <==> Unsignalled(e, net, errorRead, pos, wants)
  {
    hide TooManyHoles, BytesAt, Arrived;
    FinalStaysKnown(net, e);
  }

  /** A call that waits: events happen, and it receives the signal, looks again and has to wait again. */
  datatype WaitStep = Happened(e: Event) | SignalReceived

  datatype Moment = Moment(net: Net, signal: bool)

  ghost predicate NextMoment(m: Moment, step: WaitStep, errorRead: bool, pos: nat, wants: Wants, m': Moment) {
    match step
    case Happened(e) =>
      && InRange(e) && NetStep(m.net, e) == Some(m'.net)
      && m'.signal == (m.signal || Signals(e, m.net, errorRead))
    case SignalReceived =>
      m.signal && m' == m.(signal := false) && Blocked(m.net, pos, wants)
  }

  ghost predicate IsWait(moments: seq<Moment>, steps: seq<WaitStep>, errorRead: bool, pos: nat, wants: Wants) {
    && |moments| == |steps| + 1
    && FinalKnown(moments[0].net) && Blocked(moments[0].net, pos, wants)
    && forall i :: 0 <= i < |steps| ==> NextMoment(moments[i], steps[i], errorRead, pos, wants, moments[i + 1])
  }

  /** No moment without a signal at which the call need not wait. */
  ghost predicate NoneLost(moments: seq<Moment>, pos: nat, wants: Wants) {
    forall i :: 0 <= i < |moments| && !moments[i].signal ==> Blocked(moments[i].net, pos, wants)
  }

  /** The events that do not signal come at a time when there is a signal already. */
  ghost predicate AllSignalled(moments: seq<Moment>, steps: seq<WaitStep>, errorRead: bool, pos: nat, wants: Wants)
    requires |moments| == |steps| + 1
  {
    forall i :: 0 <= i < |steps| && steps[i].Happened? && !moments[i].signal ==>
                  !Unsignalled(steps[i].e, moments[i].net, errorRead, pos, wants)
  }

  /** Wake-ups are not lost: however long a Read or a Peek waits and whatever happens, as long as there is no signal it
      has to wait, if and only if no unsignalled event happens without a signal. */
  lemma {:induction false} NoLostWakeup(moments: seq<Moment>, steps: seq<WaitStep>, errorRead: bool, pos: nat,
                                        wants: Wants)
    requires IsWait(moments, steps, errorRead, pos, wants)
    ensures NoneLost(moments, pos, wants) <==> AllSignalled(moments, steps, errorRead, pos, wants)
    ensures FinalKnown(moments[|steps|].net)
    decreases |steps|
  {
    hide NetStep, Blocked, Unsignalled, Signals, FinalKnown, InRange;
    if steps == [] {
      assert NoneLost(moments, pos, wants);
    } else {
      var n := |steps| - 1;
      var moments', steps' := moments[..n + 1], steps[..n];
      assert NextMoment(moments[n], steps[n], errorRead, pos, wants, moments[n + 1]);
      NoLostWakeup(moments', steps', errorRead, pos, wants);
      assert moments'[n] == moments[n];
      StepLoses(moments[n], steps[n], errorRead, pos, wants, moments[n + 1]);
      assert NoneLost(moments, pos, wants) <==>
             NoneLost(moments', pos, wants) && (!moments[n + 1].signal ==> Blocked(moments[n + 1].net, pos, wants));
      assert AllSignalled(moments, steps, errorRead, pos, wants) <==>
             && AllSignalled(moments', steps', errorRead, pos, wants)
             && (steps[n].Happened? && !moments[n].signal ==>
                   !Unsignalled(steps[n].e, moments[n].net, errorRead, pos, wants));
    }
  }

  lemma StepLoses(m: Moment, step: WaitStep, errorRead: bool, pos: nat, wants: Wants, m': Moment)
    requires FinalKnown(m.net) && NextMoment(m, step, errorRead, pos, wants, m')
    ensures FinalKnown(m'.net)
    ensures (!m.signal ==> Blocked(m.net, pos, wants)) ==>
            (!m'.signal && !Blocked(m'.net, pos, wants) <==>
             step.Happened? && !m.signal && Unsignalled(step.e, m.net, errorRead, pos, wants))
  {
    hide NetStep, Blocked, Unsignalled, Signals, FinalKnown, InRange;
    if step.Happened? {
      FinalStaysKnown(m.net, step.e);
      if !m.signal && Blocked(m.net, pos, wants) {
        SignalledExcept(m.net, step.e, errorRead, pos, wants);
      }
    }
  }
}

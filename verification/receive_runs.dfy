/** Whole runs of a receive stream: reads, peeks and everything that arrives, in any order. */
module ReceiveRuns {
  import opened Protocol
  import opened FrameQueue
  import opened Reassembly
  import opened FrameSorting
  import opened ReceiveLedger
  import opened ReceiveEvents
  import opened ReceiveStreams

  /** A call of the application, with what happens while it waits, or an event between the calls. */
  datatype Op =
    | ReadOp(n: nat, deadlineOver: bool, script: seq<Wakeup>)
    | PeekOp(n: nat, deadlineOver: bool, script: seq<Wakeup>)
    | EventOp(e: Event)

  /** The bytes that an operation may bring. */
  ghost function OpBytes(op: Op): set<(nat, byte)> {
    match op
    case ReadOp(_, _, script) => ScriptBytes(script)
    case PeekOp(_, _, script) => ScriptBytes(script)
    case EventOp(e) => EventBytes(e)
  }

  ghost predicate OpInRange(op: Op) {
    match op
    case ReadOp(_, _, script) => AllInRange(script)
    case PeekOp(_, _, script) => AllInRange(script)
    case EventOp(e) => InRange(e)
  }

  /** The peer sends the bytes of one stream. */
  ghost predicate From(bytes: set<(nat, byte)>, content: nat -> byte) {
    forall x: nat, b: byte :: (x, b) in bytes ==> b == content(x)
  }

  /** `b` is the part of the stream that starts at `pos`. */
  ghost predicate PartAt(b: seq<byte>, pos: nat, content: nat -> byte) {
    forall i :: 0 <= i < |b| ==> b[i] == content(pos + i)
  }

  lemma FromMore(before: set<(nat, byte)>, after: set<(nat, byte)>, more: set<(nat, byte)>, content: nat -> byte)
    requires From(before, content) && From(more, content) && after <= before + more
    ensures From(after, content)
  {
  }

  lemma CopiedPart(offered: set<(nat, byte)>, pos: nat, b: seq<byte>, content: nat -> byte)
    requires Copied(offered, pos, b) && From(offered, content)
    ensures PartAt(b, pos, content)
  {
    forall i | 0 <= i < |b|
      ensures b[i] == content(pos + i)
    {
      assert (pos + i, b[i]) in offered;
    }
  }

  lemma PartsJoin(a: seq<byte>, b: seq<byte>, content: nat -> byte)
    requires PartAt(a, 0, content) && PartAt(b, |a|, content)
    ensures PartAt(a + b, 0, content)
  {
    forall i | 0 <= i < |a + b|
      ensures (a + b)[i] == content(0 + i)
    {
      if i >= |a| {
        assert (a + b)[i] == b[i - |a|] == content(|a| + (i - |a|));
      }
    }
  }

  /** What a call returns; for an event, whether it closes the connection. */
  datatype Outcome = Outcome(b: seq<byte>, err: ReadError, newly: bool)

  /** What an operation does: an event is refused exactly if it is an error, a Read or Peek returns what it has to. */
  ghost predicate Performed(net: Net, pos: nat, op: Op, woken: nat, out: Outcome, net': Net) {
    match op
    case ReadOp(n, deadlineOver, script) =>
      ReadReturns(net, pos, n, deadlineOver, script, woken, out.b, out.err, net')
    case PeekOp(n, deadlineOver, script) =>
      PeekReturns(net, pos, n, deadlineOver, script, woken, out.b, out.err, net')
    case EventOp(e) =>
      && out.b == [] && out.err in {NoError, ConnectionError}
      && NetStep(net, e) == (if out.err == ConnectionError then None else Some(net'))
  }

  /** A Read that tells the reader about the end of the stream or its cancellation. */
  predicate SeesError(op: Op, out: Outcome) {
    op.ReadOp? && (out.err == Eof || out.err == CancelError)
  }

  /** The final offset is known, and the reader has not cancelled. */
  predicate Final(net: Net) {
    net.finalOffset < MAX_BYTE_COUNT && !net.cancelledLocally
  }

  /** One of the first `n` operations has told the reader. */
  ghost predicate Seen(ops: seq<Op>, outcomes: seq<Outcome>, n: nat)
    requires n <= |ops| && n <= |outcomes|
  {
    exists i :: 0 <= i < n && SeesError(ops[i], outcomes[i])
  }

  /** Read reports the completion of the stream exactly if it is the first one that tells the reader, unless the reader
      has cancelled or the final offset is not known. */
  ghost predicate ReportsOnce(ops: seq<Op>, outcomes: seq<Outcome>, nets: seq<Net>, i: nat)
    requires i < |ops| && i < |outcomes| && i + 1 < |nets|
  {
    outcomes[i].err != ConnectionError ==>
      (outcomes[i].newly <==> SeesError(ops[i], outcomes[i]) && !Seen(ops, outcomes, i) && Final(nets[i + 1]))
  }

  lemma SeenNext(ops: seq<Op>, outcomes: seq<Outcome>, out: Outcome)
    requires |outcomes| < |ops|
    ensures var n := |outcomes|;
            && (Seen(ops, outcomes + [out], n + 1) <==> Seen(ops, outcomes, n) || SeesError(ops[n], out))
            && forall k :: 0 <= k <= n ==> (Seen(ops, outcomes + [out], k) <==> Seen(ops, outcomes, k))
  {
    var outcomes' := outcomes + [out];
    forall k | 0 <= k <= |outcomes|
      ensures Seen(ops, outcomes', k) <==> Seen(ops, outcomes, k)
    {
      if Seen(ops, outcomes, k) {
        var i :| 0 <= i < k && SeesError(ops[i], outcomes[i]);
        assert SeesError(ops[i], outcomes'[i]);
      }
    }
    if Seen(ops, outcomes, |outcomes|) {
      var i :| 0 <= i < |outcomes| && SeesError(ops[i], outcomes[i]);
      assert SeesError(ops[i], outcomes'[i]);
    }
    if SeesError(ops[|outcomes|], out) {
      assert SeesError(ops[|outcomes|], outcomes'[|outcomes|]);
    }
  }

  lemma ReportsNext(ops: seq<Op>, outcomes: seq<Outcome>, nets: seq<Net>, out: Outcome, net: Net)
    requires |outcomes| < |ops| && |nets| == |outcomes| + 1
    requires forall i :: 0 <= i < |outcomes| ==> ReportsOnce(ops, outcomes, nets, i)
    requires out.err != ConnectionError ==>
               (out.newly <==> && SeesError(ops[|outcomes|], out) && !Seen(ops, outcomes, |outcomes|) && Final(net))
    ensures forall i :: 0 <= i <= |outcomes| ==> ReportsOnce(ops, outcomes + [out], nets + [net], i)
    ensures Seen(ops, outcomes + [out], |outcomes| + 1) <==>
            Seen(ops, outcomes, |outcomes|) || SeesError(ops[|outcomes|], out)
  {
    hide Seen, SeesError, Final;
    SeenNext(ops, outcomes, out);
    forall i | 0 <= i < |outcomes|
      ensures ReportsOnce(ops, outcomes + [out], nets + [net], i)
    {
      assert ReportsOnce(ops, outcomes, nets, i);
    }
  }

  /** What an operation takes from the stream. */
  function Taken(op: Op, out: Outcome): seq<byte> {
    if op.ReadOp? && out.err != ConnectionError then out.b else []
  }

  /** What the first `n` operations have read. */
  function ReadBy(ops: seq<Op>, outcomes: seq<Outcome>, n: nat): seq<byte>
    requires n <= |ops| && n <= |outcomes|
  {
    if n == 0 then [] else ReadBy(ops, outcomes, n - 1) + Taken(ops[n - 1], outcomes[n - 1])
  }

  /** The session is over: the connection was closed, or the whole stream was read. */
  predicate Last(op: Op, out: Outcome) {
    out.err == ConnectionError || (op.ReadOp? && out.err == Eof)
  }

  predicate Aligned(ops: seq<Op>, outcomes: seq<Outcome>, wakes: seq<nat>, nets: seq<Net>) {
    |outcomes| <= |ops| && |wakes| == |outcomes| && |nets| == |outcomes| + 1
  }

  /** Operation `i` leads from one state to the next. */
  ghost predicate PerformedAt(ops: seq<Op>, outcomes: seq<Outcome>, wakes: seq<nat>, nets: seq<Net>, i: nat)
    requires Aligned(ops, outcomes, wakes, nets) && i < |outcomes|
  {
    Performed(nets[i], |ReadBy(ops, outcomes, i)|, ops[i], wakes[i], outcomes[i], nets[i + 1])
  }

  /** The operations performed so far, what they returned, and the states in between. */
  ghost predicate Follows(ops: seq<Op>, outcomes: seq<Outcome>, wakes: seq<nat>, nets: seq<Net>) {
    && Aligned(ops, outcomes, wakes, nets) && nets[0] == NewNet()
    && (forall i :: 0 <= i < |outcomes| ==> PerformedAt(ops, outcomes, wakes, nets, i))
    && (forall i :: 0 <= i < |outcomes| - 1 ==> !Last(ops[i], outcomes[i]))
  }

  /** All operations are performed, unless the session is over before. */
  ghost predicate IsSession(ops: seq<Op>, outcomes: seq<Outcome>, wakes: seq<nat>, nets: seq<Net>) {
    && Follows(ops, outcomes, wakes, nets)
    && (|outcomes| < |ops| ==> outcomes != [] && Last(ops[|outcomes| - 1], outcomes[|outcomes| - 1]))
  }

  lemma {:induction false} ReadByPrefix(ops: seq<Op>, outcomes: seq<Outcome>, out: Outcome, n: nat)
    requires n <= |ops| && n <= |outcomes|
    ensures ReadBy(ops, outcomes + [out], n) == ReadBy(ops, outcomes, n)
  {
    if n > 0 {
      ReadByPrefix(ops, outcomes, out, n - 1);
    }
  }

  lemma FollowsNext(ops: seq<Op>, outcomes: seq<Outcome>, wakes: seq<nat>, nets: seq<Net>, woken: nat, out: Outcome,
                    net: Net)
    requires Follows(ops, outcomes, wakes, nets) && |outcomes| < |ops|
    requires outcomes != [] ==> !Last(ops[|outcomes| - 1], outcomes[|outcomes| - 1])
    requires var n := |outcomes|; Performed(nets[n], |ReadBy(ops, outcomes, n)|, ops[n], woken, out, net)
    ensures Follows(ops, outcomes + [out], wakes + [woken], nets + [net])
    ensures var n := |outcomes|; ReadBy(ops, outcomes + [out], n + 1) == ReadBy(ops, outcomes, n) + Taken(ops[n], out)
  {
    hide Performed, PerformedAt, Last, ReadBy;
    var outcomes', wakes', nets' := outcomes + [out], wakes + [woken], nets + [net];
    forall i | 0 <= i < |outcomes'|
      ensures PerformedAt(ops, outcomes', wakes', nets', i)
    {
      if i < |outcomes| {
        assert PerformedAt(ops, outcomes, wakes, nets, i);
      }
      PerformedStill(ops, outcomes, wakes, nets, woken, out, net, i);
    }
    ReadByNext(ops, outcomes, out);
  }

  lemma ReadByNext(ops: seq<Op>, outcomes: seq<Outcome>, out: Outcome)
    requires |outcomes| < |ops|
    ensures var n := |outcomes|; ReadBy(ops, outcomes + [out], n + 1) == ReadBy(ops, outcomes, n) + Taken(ops[n], out)
  {
    ReadByPrefix(ops, outcomes, out, |outcomes|);
  }

  lemma PerformedStill(ops: seq<Op>, outcomes: seq<Outcome>, wakes: seq<nat>, nets: seq<Net>, woken: nat, out: Outcome,
                       net: Net, i: nat)
    requires Aligned(ops, outcomes, wakes, nets) && i <= |outcomes| < |ops|
    requires i < |outcomes| ==> PerformedAt(ops, outcomes, wakes, nets, i)
    requires var n := |outcomes|; Performed(nets[n], |ReadBy(ops, outcomes, n)|, ops[n], woken, out, net)
    ensures PerformedAt(ops, outcomes + [out], wakes + [woken], nets + [net], i)
  {
    hide Performed, ReadBy;
    ReadByPrefix(ops, outcomes, out, i);
  }

  /** What has arrived after an operation that does not close the connection is what it brings, and what was there. */
  lemma PerformedBytes(net: Net, pos: nat, op: Op, woken: nat, out: Outcome, net': Net)
    requires Performed(net, pos, op, woken, out, net') && out.err != ConnectionError
    ensures net.offered <= net'.offered <= net.offered + OpBytes(op) && Copied(net'.offered, pos, out.b)
  {
    hide WakeSteps, NetStep, Waited, ScriptBytes, EventBytes;
    match op {
      case ReadOp(_, deadlineOver, script) =>
        WaitedWithin(net, pos, ToRead, deadlineOver, script, woken);
        WakeStepsBytes(net, script, woken);
      case PeekOp(n, deadlineOver, script) =>
        WaitedWithin(net, pos, ToPeek(n), deadlineOver, script, woken);
        WakeStepsBytes(net, script, woken);
      case EventOp(e) =>
        NetStepBytes(net, e);
    }
  }

  /** A call shows the part of the stream that follows what was read before. */
  ghost predicate ShowsWhatFollows(ops: seq<Op>, outcomes: seq<Outcome>, i: nat, content: nat -> byte)
    requires i < |ops| && i < |outcomes|
  {
    outcomes[i].err != ConnectionError ==> PartAt(outcomes[i].b, |ReadBy(ops, outcomes, i)|, content)
  }

  /** The peer sends the bytes of one stream: every call shows the part of it that follows what was read before, and all
      that was read is a prefix of it. */
  lemma {:induction false} SessionContent(ops: seq<Op>, outcomes: seq<Outcome>, wakes: seq<nat>, nets: seq<Net>, n: nat,
                                          content: nat -> byte)
    requires Follows(ops, outcomes, wakes, nets) && n <= |outcomes|
    requires forall i :: 0 <= i < |ops| ==> From(OpBytes(ops[i]), content)
    ensures PartAt(ReadBy(ops, outcomes, n), 0, content)
    ensures forall i :: 0 <= i < n ==> ShowsWhatFollows(ops, outcomes, i, content)
    ensures n < |outcomes| || n == 0 || outcomes[n - 1].err != ConnectionError ==> From(nets[n].offered, content)
  {
    hide Performed, From, PartAt, OpBytes, ReadBy, PerformedAt, ShowsWhatFollows;
    if n == 0 {
      NothingSent(ops, outcomes, content);
    } else {
      SessionContent(ops, outcomes, wakes, nets, n - 1, content);
      assert n == 1 || !Last(ops[n - 2], outcomes[n - 2]);
      assert PerformedAt(ops, outcomes, wakes, nets, n - 1);
      StepContent(ops, outcomes, wakes, nets, n - 1, content);
    }
  }

  lemma StepContent(ops: seq<Op>, outcomes: seq<Outcome>, wakes: seq<nat>, nets: seq<Net>, i: nat, content: nat -> byte)
    requires Aligned(ops, outcomes, wakes, nets) && i < |outcomes| && PerformedAt(ops, outcomes, wakes, nets, i)
    requires From(nets[i].offered, content) && From(OpBytes(ops[i]), content)
    requires PartAt(ReadBy(ops, outcomes, i), 0, content)
    ensures PartAt(ReadBy(ops, outcomes, i + 1), 0, content) && ShowsWhatFollows(ops, outcomes, i, content)
    ensures outcomes[i].err != ConnectionError ==> From(nets[i + 1].offered, content)
  {
    hide Performed, From, PartAt, OpBytes, Copied;
    var before, op, out := ReadBy(ops, outcomes, i), ops[i], outcomes[i];
    if out.err != ConnectionError {
      PerformedBytes(nets[i], |before|, op, wakes[i], out, nets[i + 1]);
      FromMore(nets[i].offered, nets[i + 1].offered, OpBytes(op), content);
      CopiedPart(nets[i + 1].offered, |before|, out.b, content);
      PartsJoin(before, out.b, content);
    }
    NothingMore(before);
  }

  lemma NothingMore(b: seq<byte>)
    ensures b + [] == b
  {
  }

  lemma NothingSent(ops: seq<Op>, outcomes: seq<Outcome>, content: nat -> byte)
    ensures From(NewNet().offered, content) && PartAt(ReadBy(ops, outcomes, 0), 0, content)
  {
  }

  /** One operation. */
  method Perform(s: ReceiveStream, op: Op) returns (out: Outcome, ghost woken: nat)
    requires s.Valid() && OpInRange(op)
    modifies s, s.frameQueue
    ensures Performed(old(s.N()), |old(s.readBytes)|, op, woken, out, s.N())
    ensures out.err != ConnectionError ==> s.Valid() && s.readBytes == old(s.readBytes) + Taken(op, out)
    ensures op.ReadOp? && out.err == Eof ==> s.completed
    ensures out.err != ConnectionError ==> s.errorRead == (old(s.errorRead) || SeesError(op, out))
    ensures out.err != ConnectionError && old(s.Reported(s.errorRead)) ==> s.Reported(s.errorRead)
    ensures out.err != ConnectionError && old(s.Reported(s.errorRead)) ==>
              (out.newly <==> SeesError(op, out) && !old(s.errorRead) && Final(s.N()))
  {
    hide ReceiveStream.Valid, AllInRange, InRange, ReadReturns, PeekReturns, NetStep, Unsignalled, Blocked, Signals;
    woken := 0;
    match op {
      case ReadOp(n, deadlineOver, script) =>
        var p, err, newly;
        p, err, newly, woken := s.Read(n, deadlineOver, script);
        out := Outcome(p, err, newly);
      case PeekOp(n, deadlineOver, script) =>
        var b, err;
        b, err, woken := s.Peek(n, deadlineOver, script);
        out := Outcome(b, err, false);
      case EventOp(e) =>
        var ok := s.ApplyOne(e);
        out := Outcome([], if ok then NoError else ConnectionError, false);
    }
  }

  /** A whole session with a peer that sends the bytes of one stream, in any frames and any order. All operations are
      performed, one after the other, unless a frame closes the connection or the whole stream was read; what the reads
      return is a prefix of the stream, every call shows the bytes that follow, and after io.EOF all was read. */
  method Session(ops: seq<Op>, ghost content: nat -> byte)
    returns (s: ReceiveStream, data: seq<byte>, outcomes: seq<Outcome>, ok: bool, ended: bool,
             ghost wakes: seq<nat>, ghost nets: seq<Net>)
    requires forall i :: 0 <= i < |ops| ==> OpInRange(ops[i]) && From(OpBytes(ops[i]), content)
    ensures fresh(s) && IsSession(ops, outcomes, wakes, nets) && data == ReadBy(ops, outcomes, |outcomes|)
    ensures ok <==> outcomes == [] || outcomes[|outcomes| - 1].err != ConnectionError
    ensures ended <==> outcomes != [] && ops[|outcomes| - 1].ReadOp? && outcomes[|outcomes| - 1].err == Eof
    ensures ok ==> s.Valid() && s.readBytes == data && s.N() == nets[|outcomes|]
    ensures ended ==> |data| == s.finalOffset < MAX_BYTE_COUNT && s.completed
    ensures PartAt(data, 0, content)
    ensures forall i :: 0 <= i < |outcomes| ==> ShowsWhatFollows(ops, outcomes, i, content)
    ensures forall i :: 0 <= i < |outcomes| ==> ReportsOnce(ops, outcomes, nets, i)
  {
    hide ReceiveStream.Valid, OpBytes, OpInRange, From, PartAt, Performed, PerformedAt, ReadBy, Follows,
         ShowsWhatFollows, ReportsOnce, Seen, SeesError, Final, ReceiveStream.Reported;
    s := new ReceiveStream();
    data, outcomes, ok, ended, wakes, nets := [], [], true, false, [], [s.N()];
    NothingYet(ops);
    var i := 0;
    while i < |ops| && ok && !ended
      invariant 0 <= i <= |ops| && i == |outcomes| && fresh(s) && fresh(s.frameQueue)
      invariant |nets| == i + 1 && Follows(ops, outcomes, wakes, nets) && data == ReadBy(ops, outcomes, |outcomes|)
      invariant ok <==> outcomes == [] || outcomes[|outcomes| - 1].err != ConnectionError
      invariant ended <==> outcomes != [] && ops[|outcomes| - 1].ReadOp? && outcomes[|outcomes| - 1].err == Eof
      invariant ok ==> s.Valid() && s.readBytes == data && s.N() == nets[i]
      invariant ended ==> |data| == s.finalOffset < MAX_BYTE_COUNT && s.completed
      invariant ok ==> s.Reported(s.errorRead) && (s.errorRead <==> Seen(ops, outcomes, i))
      invariant forall j :: 0 <= j < i ==> ReportsOnce(ops, outcomes, nets, j)
    {
      ghost var pos := |data|;
      var out: Outcome;
      ghost var woken;
      out, woken := Perform(s, ops[i]);
      FollowsNext(ops, outcomes, wakes, nets, woken, out, s.N());
      ReportsNext(ops, outcomes, nets, out, s.N());
      EndOfStream(nets[i], pos, ops[i], woken, out, s.N());
      data, outcomes, wakes, nets := data + Taken(ops[i], out), outcomes + [out], wakes + [woken], nets + [s.N()];
      ok, ended := out.err != ConnectionError, ops[i].ReadOp? && out.err == Eof;
      i := i + 1;
    }
    SessionContent(ops, outcomes, wakes, nets, |outcomes|, content);
  }

  lemma NothingYet(ops: seq<Op>)
    ensures Follows(ops, [], [], [NewNet()]) && ReadBy(ops, [], 0) == [] && !Seen(ops, [], 0)
  {
  }

  lemma EndOfStream(net: Net, pos: nat, op: Op, woken: nat, out: Outcome, net': Net)
    requires Performed(net, pos, op, woken, out, net')
    ensures op.ReadOp? && out.err == Eof ==> pos + |out.b| == net'.finalOffset < MAX_BYTE_COUNT
  {
  }

  /** A Peek that has to wait is signalled by every event that lets it return, except exactly by the unsignalled ones.
      */
  method WhilePeeking(s: ReceiveStream, e: Event, ghost n: nat) returns (ok: bool)
    requires s.Valid() && InRange(e) && s.PeekMustWait(n) && !s.readChan
    modifies s, s.frameQueue
    ensures ok <==> NetStep(old(s.N()), e).Some?
    ensures ok ==> s.Valid()
    ensures ok ==> (!s.PeekMustWait(n) && !s.readChan <==>
                    Unsignalled(e, old(s.N()), s.errorRead, s.readPos, ToPeek(n)))
  {
    hide ReceiveStream.Valid, InRange, NetStep, Signals, Blocked, Unsignalled;
    s.FinalRecorded();
    ghost var net := s.N();
    ok := s.ApplyOne(e);
    if ok {
      SignalledExcept(net, e, s.errorRead, s.readPos, ToPeek(n));
    }
  }

  /** A Read that waits for reliable data is not woken up by CancelRead. The peer resets the stream with reliable data
      outstanding; the waiting Read receives the signal for that and has to wait on; then CancelRead lets it return,
      without a signal. */
  method MissedWakeup(finalSize: nat, reliableSize: nat) returns (s: ReceiveStream, ghost waits: bool)
    requires 0 < reliableSize <= finalSize < MAX_BYTE_COUNT
    ensures fresh(s) && s.Valid() && waits && s.cancelledLocally && !s.MustWait() && !s.readChan
  {
    hide ReceiveStream.Valid, Arrived;
    s := new ReceiveStream();
    var ok := s.HandleResetStreamFrame(finalSize, 7, reliableSize, false);
    assert ok && s.cancelledRemotely && s.reliableSize == reliableSize && s.readChan;
    s.ReceiveSignal();
    waits := s.MustWait();
    var _ := s.CancelRead(5);
  }

  /** Neither is it woken up by another reset that gives up the reliable data. */
  method MissedReset(finalSize: nat, reliableSize: nat) returns (s: ReceiveStream, ghost waits: bool)
    requires 0 < reliableSize <= finalSize < MAX_BYTE_COUNT
    ensures fresh(s) && s.Valid() && waits && s.reliableSize == 0 && !s.MustWait() && !s.readChan
  {
    hide ReceiveStream.Valid, Arrived;
    s := new ReceiveStream();
    var ok := s.HandleResetStreamFrame(finalSize, 7, reliableSize, false);
    assert ok && s.cancelledRemotely && s.reliableSize == reliableSize && s.readChan;
    s.ReceiveSignal();
    waits := s.MustWait();
    ok := s.HandleResetStreamFrame(finalSize, 7, 0, false);
  }
}

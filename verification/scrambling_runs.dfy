/** Runs of the sending side of the Initial crypto stream: when splitting the ClientHello loses nothing. */
module ScramblingRuns {
  import opened Protocol
  import opened CryptoLedger
  import ClientHello

  datatype Event = WriteMore(p: seq<byte>) | PopFrame(maxLen: nat)

  function New(scramble: bool): Sender {
    Sender([], [], 0, scramble, 0, NO_CUT, NO_CUT, [])
  }

  /** Stream offsets stay within their limit, and no empty write has a ClientHello searched again that was cut already.
      */
  predicate Allowed(s: Sender, e: Event) {
    match e
    case WriteMore(p) => !Repeats(s, p) && |s.written| + |p| <= MAX_BYTE_COUNT
    case PopFrame(maxLen) => maxLen <= MAX_BYTE_COUNT
  }

  function Next(s: Sender, e: Event): Sender
    requires InBounds(s) && Allowed(s, e)
  {
    match e
    case WriteMore(p) => Write(s, p)
    case PopFrame(maxLen) => Pop(s, maxLen).0
  }

  ghost predicate Step(s: Sender, e: Event, s': Sender) {
    InBounds(s) && Allowed(s, e) && s' == Next(s, e)
  }

  ghost predicate IsRun(states: seq<Sender>, events: seq<Event>) {
    && |states| == |events| + 1 && InBounds(states[0])
    && forall i :: 0 <= i < |events| ==> Step(states[i], events[i], states[i + 1])
  }

  /** Frames are only asked for while the stream says that it has data, as it is done when a packet is composed. */
  ghost predicate Asked(states: seq<Sender>, events: seq<Event>)
    requires |states| == |events| + 1
  {
    forall i :: 0 <= i < |events| && events[i].PopFrame? ==> HasData(states[i])
  }

  function Written(events: seq<Event>): seq<byte> {
    if events == [] then []
    else
      var last := events[|events| - 1];
      Written(events[..|events| - 1]) + if last.WriteMore? then last.p else []
  }

  /** Wherever a ClientHello ends in what was written, its positions are good, or there is nothing to cut. */
  ghost predicate GoodHello(written: seq<byte>) {
    forall n: nat :: n <= |written| && ClientHello.Locate(written[..n]).Found? ==> Harmless(written[..n])
  }

  predicate Harmless(hello: seq<byte>)
    requires ClientHello.Locate(hello).Found?
  {
    var r := ClientHello.Locate(hello);
    NothingToCut(r) || GoodPositions(r, |hello|)
  }

  lemma StepInBounds(s: Sender, e: Event)
    requires InBounds(s) && Allowed(s, e)
    ensures InBounds(Next(s, e))
  {
    hide InBounds, Pop, Write;
    match e
    case WriteMore(p) => WriteInBounds(s, p);
    case PopFrame(maxLen) => PopInBounds(s, maxLen);
  }

  /** While a ClientHello is collected, everything written is in the buffer. */
  lemma SearchesAll(s: Sender)
    requires Sound(s) && Searches(s) && s.end == 0
    ensures s.writeBuf == s.written
  {
  }

  lemma StepSound(s: Sender, e: Event)
    requires InBounds(s) && Sound(s) && Allowed(s, e) && GoodHello(Next(s, e).written)
    ensures Sound(Next(s, e))
  {
    hide Sound, Pop, ClientHello.Locate, GoodPositions;
    match e
    case PopFrame(maxLen) => PopSound(s, maxLen);
    case WriteMore(p) =>
      if Searches(s) && ClientHello.Locate(s.writeBuf + p).Found? {
        if s.end > 0 {
          FoundOnce(s, p);
        }
        SearchesAll(s);
        assert (s.written + p)[..|s.written + p|] == s.written + p;
      }
      WriteSound(s, p);
  }

  lemma StepWritten(s: Sender, e: Event)
    requires InBounds(s) && Allowed(s, e)
    ensures Next(s, e).written == s.written + if e.WriteMore? then e.p else []
  {
    hide ClientHello.Locate, MaxDataLen;
  }

  lemma GoodBefore(written: seq<byte>, more: seq<byte>)
    requires GoodHello(written + more)
    ensures GoodHello(written)
  {
    hide Harmless, ClientHello.Locate;
    forall n: nat | n <= |written| && ClientHello.Locate(written[..n]).Found?
      ensures Harmless(written[..n])
    {
      assert (written + more)[..n] == written[..n];
    }
  }

  /** The ClientHello may be written in any pieces, more may be written at any time, and frames of any sizes may be
      asked for at any time: if the positions in the ClientHello are good, no byte is ever sent twice or skipped for
      good. */
  lemma {:induction false} RunSound(states: seq<Sender>, events: seq<Event>, scramble: bool)
    requires IsRun(states, events) && states[0] == New(scramble)
    requires GoodHello(Written(events))
    ensures states[|events|].written == Written(events)
    ensures InBounds(states[|events|]) && Sound(states[|events|]) && Shrinking(states[|events|])
    decreases |events|
  {
    hide InBounds, Sound, GoodHello, Next, Allowed, Shrinking;
    var n := |events|;
    if n == 0 {
      NewSound(scramble);
    } else {
      var e := events[n - 1];
      GoodBefore(Written(events[..n - 1]), if e.WriteMore? then e.p else []);
      assert states[..n][n - 1] == states[n - 1];
      RunSound(states[..n], events[..n - 1], scramble);
      assert Step(states[n - 1], e, states[n]);
      StepWritten(states[n - 1], e);
      StepInBounds(states[n - 1], e);
      StepSound(states[n - 1], e);
      StepShrinking(states[n - 1], e);
    }
  }

  lemma NewSound(scramble: bool)
    ensures InBounds(New(scramble)) && Sound(New(scramble)) && Shrinking(New(scramble))
  {
  }

  /** Every byte written is in exactly one frame, with its value, and there is nothing more to send. */
  ghost predicate Finished(s: Sender) {
    && !HasData(s) && Truthful(s.frames, s.written) && NoOverlap(s.frames)
    && forall x: nat :: Covered(s.frames, x) <==> x < |s.written|
  }

  /** The frames can be taken out, with more being written in between or not, so that every byte is sent exactly once.
      */
  ghost predicate Lossless(s: Sender) {
    exists states: seq<Sender>, events: seq<Event> ::
      IsRun(states, events) && Asked(states, events) && states[0] == s && Finished(states[|events|])
  }

  /** From a sound state in which the ClientHello is not waited for, everything is sent. */
  lemma {:induction false} SoundLossless(s: Sender)
    requires InBounds(s) && Sound(s) && Sending(s)
    ensures Lossless(s)
    decreases Unsent(s)
  {
    hide InBounds, Sound, Sending, HasData, Unsent, Pop, MaxDataLen, Scrambling, Covered, Truthful, NoOverlap;
    if HasData(s) {
      RoomFor100(|s.written|);
      PopProgress(s, 100);
      PopInBounds(s, 100);
      PopSound(s, 100);
      PopKeepsSending(s, 100);
      var s' := Pop(s, 100).0;
      assert Step(s, PopFrame(100), s');
      SoundLossless(s');
      LosslessBefore(s, PopFrame(100), s');
    } else {
      NothingToSend(s);
      AllSent(s);
      var states, none: seq<Event> := [s], [];
      assert IsRun(states, none) && Asked(states, none) && states[0] == s && Finished(states[|none|]);
    }
  }

  lemma RoomFor100(limit: nat)
    ensures HasRoom(100, limit)
  {
  }

  lemma LosslessBefore(s: Sender, e: Event, s': Sender)
    requires Step(s, e, s') && Lossless(s') && (e.PopFrame? ==> HasData(s))
    ensures Lossless(s)
  {
    hide InBounds, Finished, Next, HasData, Step;
    var states: seq<Sender>, events: seq<Event> :|
      IsRun(states, events) && Asked(states, events) && states[0] == s' && Finished(states[|events|]);
    var states', events' := [s] + states, [e] + events;
    forall i | 0 <= i < |events'|
      ensures Step(states'[i], events'[i], states'[i + 1])
    {
      if i > 0 {
        assert Step(states[i - 1], events[i - 1], states[i]);
      }
    }
    StepStarts(s, e, s');
    assert states'[|events'|] == states[|events|];
    assert Asked(states', events') by {
      forall i | 0 <= i < |events'| && events'[i].PopFrame?
        ensures HasData(states'[i])
      {
        if i > 0 {
          assert events[i - 1].PopFrame?;
        }
      }
    }
    assert IsRun(states', events');
  }

  lemma StepStarts(s: Sender, e: Event, s': Sender)
    requires Step(s, e, s')
    ensures InBounds(s)
  {
  }

  // ---- When it is not lossless. ----

  /** The host name is missing but ECH is not: the stream never says that it has data. */
  ghost predicate Silent(s: Sender) {
    InBounds(s) && s.scramble && s.end > 0 && s.writeOffset == 0 && !Used(s.first) && s.frames == []
  }

  lemma SilentForever(s: Sender, e: Event)
    requires Silent(s) && Allowed(s, e) && (e.PopFrame? ==> HasData(s))
    ensures e.WriteMore? && Silent(Next(s, e))
  {
    hide ClientHello.Locate, Pop, MaxDataLen;
    StepInBounds(s, e);
    FoundOnce(s, e.p);
  }

  /** A cut that is used but empty. */
  predicate Empty(c: Cut) {
    Used(c) && c.start == c.end
  }

  /** The stream says that it has data. */
  predicate Begun(s: Sender) {
    InBounds(s) && s.scramble && s.end > 0 && (Used(s.first) || s.writeOffset == s.end)
  }

  /** A cut is empty: it is never removed, and nothing behind the ClientHello is ever sent. */
  ghost predicate Blocked(s: Sender) {
    Begun(s) && (Empty(s.first) || Empty(s.second)) && forall i :: 0 <= i < |s.frames| ==> s.frames[i].End() <= s.end
  }

  lemma BlockedForever(s: Sender, e: Event)
    requires Blocked(s) && Allowed(s, e)
    ensures Blocked(Next(s, e))
  {
    hide ClientHello.Locate, MaxDataLen;
    StepInBounds(s, e);
    if e.WriteMore? && Searches(s) {
      FoundOnce(s, e.p);
    }
  }

  /** Byte `z` was sent twice, or was sent and will be sent again, or will be sent twice. */
  ghost predicate Doubled(s: Sender, z: nat) {
    || SentTwice(s, z)
    || (Begun(s) && Covered(s.frames, z) && (Left(s.first, z) || Left(s.second, z)))
    || (Begun(s) && Left(s.first, z) && Left(s.second, z))
    || (Begun(s) && Used(s.first) && Left(s.second, z) && s.writeOffset < s.first.start
        && s.first.end == z == s.second.start)
    || (Begun(s) && s.writeOffset == z < s.end && (Left(s.first, z) || Left(s.second, z)))
  }

  ghost predicate SentTwice(s: Sender, z: nat) {
    exists i, j :: 0 <= i < j < |s.frames| && Has(s.frames[i], z) && Has(s.frames[j], z)
  }

  lemma SentAgain(frames: seq<CryptoFrame>, f: CryptoFrame, s': Sender, z: nat)
    requires s'.frames == frames + [f] && Covered(frames, z) && Has(f, z)
    ensures SentTwice(s', z)
  {
    var i :| 0 <= i < |frames| && Has(frames[i], z);
    assert s'.frames[i] == frames[i] && s'.frames[|frames|] == f;
  }

  lemma StillTwice(s: Sender, s': Sender, z: nat)
    requires SentTwice(s, z) && s.frames <= s'.frames
    ensures SentTwice(s', z)
  {
    var i, j :| 0 <= i < j < |s.frames| && Has(s.frames[i], z) && Has(s.frames[j], z);
    assert s'.frames[i] == s.frames[i] && s'.frames[j] == s.frames[j];
  }

  lemma DoubledWrite(s: Sender, p: seq<byte>, z: nat)
    requires InBounds(s) && Doubled(s, z) && !Repeats(s, p) && |s.written| + |p| <= MAX_BYTE_COUNT
    ensures Doubled(Write(s, p), z)
  {
    hide ClientHello.Locate, Covered, Has;
    WriteInBounds(s, p);
    if Searches(s) && s.end > 0 {
      FoundOnce(s, p);
    }
    if SentTwice(s, z) {
      StillTwice(s, Write(s, p), z);
    }
  }

  lemma DoubledCut(s: Sender, maxLen: nat, z: nat)
    requires InBounds(s) && Doubled(s, z) && !SentTwice(s, z) && s.writeOffset == s.end && maxLen <= MAX_BYTE_COUNT
    ensures Doubled(PopCut(s, maxLen).0, z)
  {
    hide ClientHello.Locate, Covered, MaxDataLen, SentTwice;
    var (s', f) := PopCut(s, maxLen);
    StepInBounds(s, PopFrame(maxLen));
    if f.Some? {
      CoveredSnoc(s.frames, f.value, z);
      if Covered(s.frames, z) && Has(f.value, z) {
        SentAgain(s.frames, f.value, s', z);
      }
    }
  }

  lemma DoubledPass(s: Sender, maxLen: nat, z: nat)
    requires InBounds(s) && Doubled(s, z) && !SentTwice(s, z) && s.writeOffset != s.end && maxLen <= MAX_BYTE_COUNT
    ensures Doubled(PopPass(s, maxLen).0, z)
  {
    hide ClientHello.Locate, Covered, MaxDataLen, SentTwice;
    var (s', f) := PopPass(s, maxLen);
    StepInBounds(s, PopFrame(maxLen));
    if f.Some? {
      CoveredSnoc(s.frames, f.value, z);
    }
  }

  lemma DoubledForever(s: Sender, e: Event, z: nat)
    requires InBounds(s) && Doubled(s, z) && Allowed(s, e)
    ensures Doubled(Next(s, e), z)
  {
    hide Doubled, InBounds, SentTwice, PopCut, PopPass, PopPlain, Write;
    match e
    case WriteMore(p) => DoubledWrite(s, p, z);
    case PopFrame(maxLen) =>
      if SentTwice(s, z) {
        PopFrames(s, maxLen);
        StillTwice(s, Next(s, e), z);
        DoubledIf(Next(s, e), z);
      } else {
        ToBeSent(s, z);
        if s.writeOffset == s.end {
          DoubledCut(s, maxLen, z);
        } else {
          DoubledPass(s, maxLen, z);
        }
      }
  }

  lemma DoubledIf(s: Sender, z: nat)
    requires SentTwice(s, z)
    ensures Doubled(s, z)
  {
  }

  lemma ToBeSent(s: Sender, z: nat)
    requires Doubled(s, z) && !SentTwice(s, z)
    ensures Begun(s) && s.scramble
  {
  }

  lemma PopFrames(s: Sender, maxLen: nat)
    requires InBounds(s) && maxLen <= MAX_BYTE_COUNT
    ensures s.frames <= Pop(s, maxLen).0.frames
  {
    hide ClientHello.Locate, MaxDataLen;
  }

  /** From here on, every run that asks for frames only when there is data stays in one of the three ways to fail. */
  ghost predicate Failing(s: Sender) {
    InBounds(s) && (Silent(s) || Blocked(s) || exists z: nat :: Doubled(s, z))
  }

  lemma FailingForever(s: Sender, e: Event)
    requires Failing(s) && Allowed(s, e) && (e.PopFrame? ==> HasData(s))
    ensures Failing(Next(s, e))
  {
    hide InBounds, Silent, Blocked, Doubled, Next, HasData, Allowed;
    StepInBounds(s, e);
    if Silent(s) {
      SilentForever(s, e);
    } else if Blocked(s) {
      BlockedForever(s, e);
    } else {
      var z: nat :| Doubled(s, z);
      DoubledForever(s, e, z);
    }
  }

  lemma FailingUnfinished(s: Sender)
    requires Failing(s)
    ensures !Finished(s)
  {
    hide ClientHello.Locate;
    if Silent(s) {
      assert !Covered(s.frames, 0);
    } else if !Blocked(s) {
      var z: nat :| Doubled(s, z);
    }
  }

  lemma {:induction false} FailingRun(states: seq<Sender>, events: seq<Event>, n: nat)
    requires IsRun(states, events) && Asked(states, events) && Failing(states[0]) && n <= |events|
    ensures Failing(states[n])
  {
    hide InBounds, Failing, HasData, Next;
    if n > 0 {
      FailingRun(states, events, n - 1);
      assert Step(states[n - 1], events[n - 1], states[n]);
      FailingForever(states[n - 1], events[n - 1]);
    }
  }

  lemma FailingLoses(s: Sender)
    requires Failing(s)
    ensures !Lossless(s)
  {
    hide Failing, Finished, Step;
    forall states: seq<Sender>, events: seq<Event> | IsRun(states, events) && Asked(states, events) && states[0] == s
      ensures !Finished(states[|events|])
    {
      FailingRun(states, events, |events|);
      FailingUnfinished(states[|events|]);
    }
  }

  // ---- The exact condition. ----

  /** A new stream to which `hello` was written, before the search. */
  function Collected(hello: seq<byte>): Sender {
    New(true).(written := hello, writeBuf := hello)
  }

  /** The stream as the last piece of the ClientHello is written. */
  function Cutting(hello: seq<byte>): Sender
    requires ClientHello.Locate(hello).Found?
  {
    var s, r := Collected(hello), ClientHello.Locate(hello);
    if NothingToCut(r) then s.(scramble := false)
    else
      var (first, second) := Cuts(r, |hello|, NO_CUT);
      s.(end := |hello|, first := first, second := second)
  }

  lemma CuttingInBounds(hello: seq<byte>)
    requires ClientHello.Locate(hello).Found? && |hello| <= MAX_BYTE_COUNT
    ensures InBounds(Cutting(hello)) && hello != []
  {
    hide ClientHello.Locate;
    ClientHello.LocateWithin(hello);
    assert hello[..|hello|] == hello;
  }

  /** Positions that are not good lead to failure. */
  lemma BadPositions(hello: seq<byte>)
    requires ClientHello.Locate(hello).Found? && |hello| <= MAX_BYTE_COUNT && !Harmless(hello)
    ensures Failing(Cutting(hello))
  {
    hide ClientHello.Locate;
    var s, r := Cutting(hello), ClientHello.Locate(hello);
    CuttingInBounds(hello);
    ClientHello.LocateWithin(hello);
    if !Used(s.first) {
      assert Silent(s);
    } else if r.sniPos + r.sniLen / 2 == r.sniPos + r.sniLen {
      assert Blocked(s);
    } else if r.sniPos + r.sniLen / 2 == 0 {
      assert Doubled(s, 0);
    } else {
      var z := if s.first.end < s.second.start then s.first.end else s.second.start;
      assert Doubled(s, z);
    }
  }

  lemma GoodPositionsSound(hello: seq<byte>)
    requires ClientHello.Locate(hello).Found? && |hello| <= MAX_BYTE_COUNT && Harmless(hello)
    ensures InBounds(Cutting(hello)) && Sound(Cutting(hello)) && Sending(Cutting(hello))
  {
    hide ClientHello.Locate;
    var s, r := Cutting(hello), ClientHello.Locate(hello);
    CuttingInBounds(hello);
    ClientHello.LocateWithin(hello);
    if !NothingToCut(r) {
      CutsAreGood(r, |hello|);
    }
  }

  function Concat(parts: seq<seq<byte>>): seq<byte> {
    if parts == [] then [] else Concat(parts[..|parts| - 1]) + parts[|parts| - 1]
  }

  function WriteAll(s: Sender, parts: seq<seq<byte>>): Sender {
    if parts == [] then s else Write(WriteAll(s, parts[..|parts| - 1]), parts[|parts| - 1])
  }

  /** Nothing happens before the last piece is written. */
  lemma {:induction false} WritesCollect(parts: seq<seq<byte>>)
    requires forall n: nat :: n <= |Concat(parts)| ==> !ClientHello.Locate(Concat(parts)[..n]).Found?
    ensures WriteAll(New(true), parts) == Collected(Concat(parts))
    decreases |parts|
  {
    hide ClientHello.Locate;
    if parts != [] {
      var before, last := parts[..|parts| - 1], parts[|parts| - 1];
      forall n: nat | n <= |Concat(before)|
        ensures !ClientHello.Locate(Concat(before)[..n]).Found?
      {
        assert Concat(parts)[..n] == Concat(before)[..n];
      }
      WritesCollect(before);
      assert Concat(parts)[..|Concat(parts)|] == Concat(parts);
    }
  }

  lemma WritesCut(parts: seq<seq<byte>>)
    requires ClientHello.Locate(Concat(parts)).Found? && parts != [] && parts[|parts| - 1] != []
    ensures WriteAll(New(true), parts) == Cutting(Concat(parts))
  {
    hide ClientHello.Locate, Cuts, NothingToCut;
    var hello := Concat(parts);
    var before, last := parts[..|parts| - 1], parts[|parts| - 1];
    forall n: nat | n <= |Concat(before)|
      ensures !ClientHello.Locate(Concat(before)[..n]).Found?
    {
      assert hello[..n] == Concat(before)[..n];
      if ClientHello.Locate(hello[..n]).Found? {
        ClientHello.LocatedOnce(hello, n);
      }
    }
    WritesCollect(before);
  }

  /** However the ClientHello is split into writes: it is sent without loss exactly if there is nothing to cut, or the
      second half of the host name is not empty and does not touch the cut through the ECH extension. */
  lemma LosslessExactly(parts: seq<seq<byte>>)
    requires parts != [] && parts[|parts| - 1] != []
    requires ClientHello.Locate(Concat(parts)).Found? && |Concat(parts)| <= MAX_BYTE_COUNT
    ensures Lossless(WriteAll(New(true), parts)) <==> Harmless(Concat(parts))
  {
    hide ClientHello.Locate, Harmless, Lossless, Cutting, WriteAll;
    WritesCut(parts);
    if Harmless(Concat(parts)) {
      GoodPositionsSound(Concat(parts));
      SoundLossless(Cutting(Concat(parts)));
    } else {
      BadPositions(Concat(parts));
      FailingLoses(Cutting(Concat(parts)));
    }
  }

  // ---- Until when the ClientHello is waited for. ----

  predicate Waiting(s: Sender) {
    s.scramble && s.end == 0
  }

  lemma StillSending(s: Sender, e: Event)
    requires InBounds(s) && Allowed(s, e) && !Waiting(s)
    ensures !Waiting(Next(s, e))
  {
    hide ClientHello.Locate, MaxDataLen;
    if e.WriteMore? && Searches(s) {
      FoundOnce(s, e.p);
    }
  }

  /** Nothing is sent exactly until a write ends where a well-formed ClientHello ends. */
  lemma {:induction false} WaitsExactly(states: seq<Sender>, events: seq<Event>, n: nat)
    requires IsRun(states, events) && Asked(states, events) && states[0] == New(true) && n <= |events|
    ensures Waiting(states[n]) <==> forall k: nat :: k <= n ==> !ClientHello.WellFormed(Written(events[..k]))
    ensures Waiting(states[n]) ==> states[n] == Collected(Written(events[..n]))
  {
    hide InBounds, ClientHello.Locate, ClientHello.WellFormed, Pop, Cuts, NothingToCut;
    if n == 0 {
      assert Written(events[..0]) == [];
      ClientHello.LocateMeans([]);
      Shorter([]);
    } else {
      WaitsExactly(states, events, n - 1);
      var s, e := states[n - 1], events[n - 1];
      assert Step(s, e, states[n]);
      assert events[..n][..n - 1] == events[..n - 1];
      ClientHello.LocateMeans(Written(events[..n]));
      if !Waiting(s) {
        StillSending(s, e);
      } else if e.WriteMore? {
        assert s == Collected(Written(events[..n - 1]));
        assert s.writeBuf + e.p == Written(events[..n]);
        Shorter(s.writeBuf + e.p);
      } else {
        assert false;
      }
    }
  }

  lemma Shorter(data: seq<byte>)
    ensures ClientHello.Locate(data).Found? ==> data != []
  {
  }

  // ---- Empty writes. ----

  /** The cuts of the ClientHello are good, and at most parts of them are left. */
  ghost predicate Shrinking(s: Sender) {
    s.scramble && s.end > 0 ==>
      && s.end <= |s.writeBuf| && ClientHello.Locate(s.writeBuf[..s.end]).Found?
      && var r := ClientHello.Locate(s.writeBuf[..s.end]);
         var (first, second) := Cuts(r, s.end, NO_CUT);
         && !NothingToCut(r) && GoodCuts(first, second, s.end)
         && (Used(s.second) ==> Used(second) && second.start <= s.second.start)
  }

  lemma StepShrinking(s: Sender, e: Event)
    requires InBounds(s) && Sound(s) && Allowed(s, e) && GoodHello(Next(s, e).written) && Shrinking(s)
    ensures Shrinking(Next(s, e))
  {
    hide ClientHello.Locate, MaxDataLen, Covered, Truthful, NoOverlap, Sent;
    match e
    case PopFrame(maxLen) =>
    case WriteMore(p) =>
      var all := s.writeBuf + p;
      assert s.scramble ==> all[..s.end] == s.writeBuf[..s.end];
      assert all[..|all|] == all;
      if Searches(s) {
        if s.end > 0 {
          FoundOnce(s, p);
        } else if ClientHello.Locate(all).Found? {
          ClientHello.LocateWithin(all);
          if !NothingToCut(ClientHello.Locate(all)) {
            CutsAreGood(ClientHello.Locate(all), |all|);
          }
        }
      }
  }

  /** An empty write does harm exactly while only the second cut of the ClientHello is left, with nothing written behind
      it. */
  lemma EmptyWrite(s: Sender)
    requires InBounds(s) && Sound(s) && Shrinking(s) && CutsWell(s, [])
    ensures Sound(Write(s, [])) <==> !Repeats(s, [])
  {
    hide ClientHello.Locate, Truthful, NoOverlap, Covered;
    assert s.writeBuf + [] == s.writeBuf && s.written + [] == s.written;
    if !Repeats(s, []) {
      WriteSound(s, []);
    } else {
      assert s.writeBuf[..s.end] == s.writeBuf;
      var first := Cuts(ClientHello.Locate(s.writeBuf), s.end, NO_CUT).0;
      ClientHello.LocateWithin(s.writeBuf);
      assert Sent(s, first.start);
      assert Left(Write(s, []).first, first.start);
      assert !Sent(Write(s, []), first.start);
    }
  }
}

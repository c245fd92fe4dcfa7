/** quic-go-bbr/crypto_stream.go: the stream of the Initial packet number space. */
module CryptoStreams {
  import opened Protocol
  import opened ByteIntervals
  import opened CryptoLedger
  import opened FrameSorting
  import Reassembly
  import FrameQueue
  import ClientHello

  const MAX_CRYPTO_STREAM_OFFSET := 16 * 1024

  datatype CryptoError = CryptoBufferExceeded | ProtocolViolation | NotAClientHello

  /** Only bytes below the offset limit have arrived. */
  ghost predicate Limited(offered: set<(nat, byte)>) {
    forall x: nat :: Reassembly.Arrived(offered, x) ==> x < MAX_CRYPTO_STREAM_OFFSET
  }

  /** The gaps of a crypto stream are so few that the limit on them is never reached. */
  lemma FewGaps(gaps: seq<Interval>, offered: set<(nat, byte)>)
    requires Reassembly.Exact(gaps, offered) && Limited(offered)
    ensures |gaps| <= MAX_CRYPTO_STREAM_OFFSET / 2 + 1
  {
    GapsSpread(gaps, |gaps| - 1);
    var start := gaps[|gaps| - 1].start;
    if start > 0 {
      assert !InGap(gaps, start - 1);
      assert Reassembly.Arrived(offered, start - 1);
    }
  }

  lemma {:induction false} GapsSpread(gaps: seq<Interval>, k: nat)
    requires Reassembly.GapsOk(gaps) && k < |gaps|
    ensures gaps[k].start >= 2 * k
  {
    if k > 0 {
      GapsSpread(gaps, k - 1);
    }
  }

  class InitialCryptoStream {
    const queue: FrameSorter
    var highestOffset: nat
    var finished: bool

    var writeOffset: nat
    var writeBuf: seq<byte>

    var scramble: bool
    var end: int
    const cuts: array<Cut>

    /** Everything written, and the frames sent. */
    ghost var written: seq<byte>
    ghost var frames: seq<CryptoFrame>

    ghost function State(): Sender
      requires cuts.Length == 2
      reads this, cuts
    {
      Sender(written, writeBuf, writeOffset, scramble, end, cuts[0], cuts[1], frames)
    }

    /** The receiving side. */
    ghost predicate Receiving()
      reads this, queue
    {
      queue.Valid() && Limited(queue.history.offered)
    }

    /** The sending side. */
    ghost predicate Valid()
      reads this, cuts
    {
      cuts.Length == 2 && InBounds(State())
    }

    constructor (scramble: bool)
      ensures fresh(queue) && fresh(cuts)
      ensures Receiving() && queue.history == Reassembly.History({}, []) && highestOffset == 0 && !finished
      ensures Valid() && State() == Sender([], [], 0, scramble, 0, NO_CUT, NO_CUT, [])
      ensures Sound(State())
    {
      queue := new FrameSorter();
      highestOffset, finished, writeOffset, writeBuf := 0, false, 0, [];
      this.scramble, end := scramble, 0;
      cuts := new Cut[2](i => NO_CUT);
      written, frames := [], [];
    }

    /** HandleCryptoFrame */
    method HandleCryptoFrame(f: CryptoFrame) returns (err: Option<CryptoError>)
      requires Receiving()
      modifies this`highestOffset, queue
      ensures Receiving()
      ensures f.End() > MAX_CRYPTO_STREAM_OFFSET ==> err == Some(CryptoBufferExceeded)
      ensures f.End() <= MAX_CRYPTO_STREAM_OFFSET ==>
                err == if finished && f.End() > old(highestOffset) then Some(ProtocolViolation) else None
      ensures queue.history == if err.Some? || finished then old(queue.history)
                               else old(queue.history).(offered := old(queue.history).offered
                                                        + Reassembly.BytesAt(f.data, f.offset))
      ensures highestOffset == if err.Some? || finished || f.End() < old(highestOffset) then old(highestOffset)
                               else f.End()
    {
      hide Reassembly.BytesAt, Reassembly.Reassembling, Reassembly.Exact, Limited, FrameQueue.Balanced;
      if f.End() > MAX_CRYPTO_STREAM_OFFSET {
        return Some(CryptoBufferExceeded);
      }
      if finished {
        if f.End() > highestOffset {
          return Some(ProtocolViolation);
        }
        return None;
      }
      highestOffset := if highestOffset > f.End() then highestOffset else f.End();
      LimitedAfter(queue.history.offered, f);
      var ok := queue.Push(f.data, f.offset, None);
      FewGaps(queue.gaps, queue.history.offered);
      err := None;
    }

    /** GetCryptoData */
    method GetCryptoData() returns (data: seq<byte>)
      requires Receiving()
      modifies queue
      ensures Receiving()
      ensures queue.history == old(queue.history).(delivered := old(queue.history).delivered + data)
      ensures queue.readPos == old(queue.readPos) + |data|
      ensures data != [] <==> Reassembly.Arrived(queue.history.offered, old(queue.readPos))
    {
      hide Reassembly.Reassembling, Limited, FrameQueue.Balanced;
      var _, d, _ := queue.Pop();
      data := d;
    }

    /** Finish */
    method FinishReading() returns (err: Option<CryptoError>)
      requires Receiving()
      modifies this`finished
      ensures err == None <==>
              forall x: nat :: queue.readPos <= x < MAX_BYTE_COUNT ==> !Reassembly.Arrived(queue.history.offered, x)
      ensures finished == (old(finished) || err == None)
    {
      var more := queue.HasMoreData();
      if more {
        return Some(ProtocolViolation);
      }
      finished := true;
      err := None;
    }

    method HasDataToSend() returns (r: bool)
      requires Valid()
      ensures r == HasData(State())
      ensures Sound(State()) ==> (r <==> !(scramble && Collecting(State())) && SomeUnsent(State()))
    {
      hide Sound, SomeUnsent;
      if Sound(State()) {
        HasDataMeans(State());
      }
      if scramble && writeOffset == 0 && cuts[0].start == INVALID_BYTE_COUNT {
        return false;
      }
      r := |writeBuf| > 0;
    }

    /** Write */
    method WriteData(p: seq<byte>) returns (err: Option<CryptoError>)
      requires Valid() && |written| + |p| <= MAX_BYTE_COUNT
      modifies this`written, this`writeBuf, this`scramble, this`end, cuts
      ensures State() == Write(old(State()), p)
      ensures err == if Searches(old(State())) && ClientHello.Locate(writeBuf) == ClientHello.Malformed then
                       Some(NotAClientHello)
                     else
                       None
      ensures !Repeats(old(State()), p) ==> Valid()
      ensures old(Sound(State())) && !Repeats(old(State()), p) && CutsWell(old(State()), p) ==> Sound(State())
    {
      hide InBounds, Sound, CutsWell, ClientHello.Locate, ClientHello.WellFormed, ClientHello.LocatedAll;
      if !Repeats(State(), p) {
        WriteFacts(State(), p);
      }
      err := None;
      writeBuf, written := writeBuf + p, written + p;
      if !scramble {
        return;
      }
      if cuts[0].start == INVALID_BYTE_COUNT {
        var r := ClientHello.FindSniAndEch(writeBuf);
        match r
        case Incomplete =>
        case Malformed =>
          err := Some(NotAClientHello);
        case Found(sniPos, sniLen, echPos) =>
          if sniPos == -1 && echPos == -1 {
            scramble := false;
            return;
          }
          end := |writeBuf|;
          MakeCuts(r);
      }
    }

    /** The cuts through the host name and the ECH extension, in the order in which they are sent. */
    method MakeCuts(r: ClientHello.Found)
      requires cuts.Length == 2 && r.Found?
      modifies cuts
      ensures multiset{cuts[0], cuts[1]} == multiset{SniCut(r), EchCut(r, end, old(cuts[1]))}
      ensures Used(cuts[1]) ==> cuts[0].start <= cuts[1].start
      ensures (cuts[0], cuts[1]) == Cuts(r, end, old(cuts[1]))
    {
      cuts[0] := Cut(r.sniPos + r.sniLen / 2, r.sniPos + r.sniLen);
      if r.echPos > 0 {
        cuts[1] := Cut(r.echPos + 1, Min(r.echPos + 1 + 16, end));
      }
      if Before(cuts[1], cuts[0]) {
        cuts[0], cuts[1] := cuts[1], cuts[0];
      }
    }

    /** PopCryptoFrame */
    method PopCryptoFrame(maxLen: nat) returns (f: Option<CryptoFrame>)
      requires Valid() && maxLen <= MAX_BYTE_COUNT
      modifies this`writeOffset, this`writeBuf, this`scramble, this`end, this`frames, cuts
      ensures (State(), f) == Pop(old(State()), maxLen)
      ensures Valid()
      ensures old(Sound(State())) ==> Sound(State())
    {
      hide Sound, MaxDataLen, ClientHello.Locate;
      PopInBounds(State(), maxLen);
      if Sound(State()) {
        PopSound(State(), maxLen);
      }
      if !scramble {
        f := PopBuffered(maxLen);
      } else if writeOffset == end {
        f := PopSkipped(maxLen);
      } else {
        f := PopUpToCut(maxLen);
      }
    }

    /** baseCryptoStream.PopCryptoFrame */
    method PopBuffered(maxLen: nat) returns (f: Option<CryptoFrame>)
      requires Valid() && !scramble && maxLen <= MAX_BYTE_COUNT
      modifies this`writeOffset, this`writeBuf, this`frames
      ensures (State(), f) == PopPlain(old(State()), maxLen)
      ensures f == None <==> old(writeBuf) == [] || MaxDataLen(old(writeOffset), maxLen) == 0
      ensures f.Some? ==>
                && f.value.offset == old(writeOffset) && old(writeBuf) == f.value.data + writeBuf
                && writeOffset == f.value.End()
                && (|f.value.data| <= 16383 ==> EncodedLen(f.value) <= maxLen)
                && (writeBuf == [] || maxLen - 1 <= EncodedLen(f.value))
    {
      hide MaxDataLen, EncodedLen;
      var n := Min(MaxDataLen(writeOffset, maxLen), |writeBuf|);
      if n <= 0 {
        return None;
      }
      f := Some(CryptoFrame(writeOffset, writeBuf[..n]));
      MaxDataFits(f.value, maxLen);
      writeBuf, writeOffset := writeBuf[n..], writeOffset + n;
      frames := frames + [f.value];
    }

    /** The part of PopCryptoFrame that sends out the skipped parts. */
    method PopSkipped(maxLen: nat) returns (f: Option<CryptoFrame>)
      requires Valid() && scramble && writeOffset == end && maxLen <= MAX_BYTE_COUNT
      modifies this`writeBuf, this`scramble, this`end, this`frames, cuts
      ensures (State(), f) == PopCut(old(State()), maxLen)
    {
      hide MaxDataLen, ClientHello.Locate;
      ghost var s := State();
      var foundCuts := false;
      f := None;
      var i := 0;
      while i < 2
        modifies cuts
        invariant 0 <= i <= 2
        invariant foundCuts <==> exists j :: 0 <= j < i && Used(cuts[j])
        invariant i == 0 ==> f == None
        invariant i == 1 ==> cuts[1] == s.second
        invariant f == None ==>
                  (i > 0 ==> !Used(cuts[0])) && (i > 1 ==> !Used(cuts[1])) && cuts[0] == s.first && cuts[1] == s.second
        invariant f.Some? && Used(s.first) ==> CutTaken(s.first, cuts[0], f, maxLen) && cuts[1] == s.second
        invariant f.Some? && !Used(s.first) ==>
                  Used(s.second) && CutTaken(s.second, cuts[1], f, maxLen) && cuts[0] == s.first && i == 2
      {
        if Used(cuts[i]) {
          foundCuts := true;
          if f.Some? {
            break;
          }
          var done;
          f, done := TakeFromCut(i, maxLen);
          if f == None {
            return;
          }
          if done {
            foundCuts := false;
          }
        }
        i := i + 1;
      }
      if !foundCuts {
        writeBuf, end, scramble := writeBuf[end..], INVALID_BYTE_COUNT, false;
      }
      if f.Some? {
        frames := frames + [f.value];
      }
    }

    /** A frame with data from cut `c` was made, which leaves `c'` of it. */
    ghost predicate CutTaken(c: Cut, c': Cut, f: Option<CryptoFrame>, maxLen: nat)
      requires maxLen <= MAX_BYTE_COUNT
      reads this
    {
      && 0 <= c.start <= c.end <= |writeBuf| && c.start <= MAX_BYTE_COUNT
      && var n := Min(MaxDataLen(c.start, maxLen), c.end - c.start);
         if n <= 0 then f == None && c' == c
         else f == Some(CryptoFrame(c.start, writeBuf[c.start..c.start + n])) && c' == Shorten(c, n)
    }

    method TakeFromCut(i: nat, maxLen: nat) returns (f: Option<CryptoFrame>, done: bool)
      requires cuts.Length == 2 && i < 2 && maxLen <= MAX_BYTE_COUNT
      requires 0 <= cuts[i].start <= cuts[i].end <= |writeBuf| && cuts[i].start <= MAX_BYTE_COUNT
      modifies cuts
      ensures CutTaken(old(cuts[i]), cuts[i], f, maxLen)
      ensures cuts[1 - i] == old(cuts[1 - i])
      ensures done <==> f.Some? && !Used(cuts[i])
    {
      hide MaxDataLen;
      var c := cuts[i];
      var n := Min(MaxDataLen(c.start, maxLen), c.end - c.start);
      if n <= 0 {
        return None, false;
      }
      f := Some(CryptoFrame(c.start, writeBuf[c.start..c.start + n]));
      cuts[i] := c.(start := c.start + n);
      done := cuts[i].start == c.end;
      if done {
        cuts[i] := NO_CUT;
      }
    }

    /** The part of PopCryptoFrame that sends data up to the next cut, and skips the cut. */
    method PopUpToCut(maxLen: nat) returns (f: Option<CryptoFrame>)
      requires Valid() && scramble && writeOffset != end && maxLen <= MAX_BYTE_COUNT
      modifies this`writeOffset, this`frames
      ensures (State(), f) == PopPass(old(State()), maxLen)
    {
      hide MaxDataLen, ClientHello.Locate;
      var nextCut := NO_CUT;
      var i := 0;
      while i < 2
        invariant 0 <= i <= 2 && nextCut == NO_CUT
        invariant forall j :: 0 <= j < i ==> !(Used(cuts[j]) && cuts[j].start > writeOffset)
      {
        if Used(cuts[i]) && cuts[i].start > writeOffset {
          nextCut := cuts[i];
          break;
        }
        i := i + 1;
      }
      assert nextCut == NextCut(State());
      var maxOffset := nextCut.start;
      if maxOffset == INVALID_BYTE_COUNT {
        maxOffset := end;
      }
      var n := Min(MaxDataLen(writeOffset, maxLen), maxOffset - writeOffset);
      if n <= 0 {
        return None;
      }
      f := Some(CryptoFrame(writeOffset, writeBuf[writeOffset..writeOffset + n]));
      writeOffset := writeOffset + n;
      if writeOffset == nextCut.start {
        writeOffset := nextCut.end;
      }
      frames := frames + [f.value];
    }
  }

  lemma LimitedAfter(offered: set<(nat, byte)>, f: CryptoFrame)
    requires Limited(offered) && f.End() <= MAX_CRYPTO_STREAM_OFFSET
    ensures Limited(offered + Reassembly.BytesAt(f.data, f.offset))
  {
    forall x: nat
      ensures Reassembly.Arrived(offered + Reassembly.BytesAt(f.data, f.offset), x) ==> x < MAX_CRYPTO_STREAM_OFFSET
    {
      Reassembly.ArrivedAfter(offered, f.data, f.offset, x);
    }
  }

  /** What WriteData keeps. */
  lemma WriteFacts(s: Sender, p: seq<byte>)
    requires InBounds(s) && !Repeats(s, p) && |s.written| + |p| <= MAX_BYTE_COUNT
    ensures InBounds(Write(s, p))
    ensures Sound(s) && CutsWell(s, p) ==> Sound(Write(s, p))
  {
    hide InBounds, Sound, CutsWell, Write;
    WriteInBounds(s, p);
    if Sound(s) && CutsWell(s, p) {
      WriteSound(s, p);
    }
  }
}

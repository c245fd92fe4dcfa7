/** Which bytes of the crypto stream were sent, while the ClientHello is sent out of order. */
module CryptoLedger {
  import opened Protocol
  import VarintLen
  import ClientHello

  datatype CryptoFrame = CryptoFrame(offset: nat, data: seq<byte>) {
    function End(): nat {
      offset + |data|
    }
  }

  /** A part of the ClientHello that is sent last; not in use if `start` is InvalidByteCount. */
  datatype Cut = Cut(start: int, end: int)

  const NO_CUT := Cut(INVALID_BYTE_COUNT, INVALID_BYTE_COUNT)

  predicate Used(c: Cut) {
    c.start != INVALID_BYTE_COUNT
  }

  /** Byte `x` is in what is left of the cut. */
  predicate Left(c: Cut, x: int) {
    Used(c) && c.start <= x < c.end
  }

  /** The sending side: everything written, what is buffered, how far the first pass has come, where it ends, the two
      cuts and the frames sent. */
  datatype Sender = Sender(
    written: seq<byte>, writeBuf: seq<byte>, writeOffset: nat, scramble: bool, end: int, first: Cut, second: Cut,
    frames: seq<CryptoFrame>)

  /** The first pass has sent everything below the write offset, except for the cuts. */
  predicate Sent(s: Sender, x: nat) {
    x < s.writeOffset && (s.scramble ==> !Left(s.first, x) && !Left(s.second, x))
  }

  ghost predicate Has(f: CryptoFrame, x: nat) {
    f.offset <= x < f.End()
  }

  ghost predicate Covered(frames: seq<CryptoFrame>, x: nat) {
    exists i :: 0 <= i < |frames| && Has(frames[i], x)
  }

  /** No byte is in two frames. */
  ghost predicate NoOverlap(frames: seq<CryptoFrame>) {
    forall i, j, x: nat :: 0 <= i < j < |frames| && Has(frames[i], x) ==> !Has(frames[j], x)
  }

  ghost predicate Truthful(frames: seq<CryptoFrame>, written: seq<byte>) {
    forall i :: 0 <= i < |frames| ==>
      frames[i].data != [] && frames[i].End() <= |written|
      && frames[i].data == written[frames[i].offset..frames[i].End()]
  }

  /** A cut lies inside the ClientHello, and was either skipped completely or not reached yet. */
  predicate CutOk(c: Cut, writeOffset: nat, end: int) {
    Used(c) ==> 0 < c.start < c.end <= end && (c.end <= writeOffset || writeOffset < c.start)
  }

  /** The scrambled state: two cuts with at least one byte between them. */
  predicate Scrambling(s: Sender) {
    && s.writeBuf == s.written && s.writeOffset <= s.end <= |s.written|
    && CutOk(s.first, s.writeOffset, s.end) && CutOk(s.second, s.writeOffset, s.end)
    && (Used(s.first) && Used(s.second) ==> s.first.end < s.second.start)
    && (Used(s.first) || Used(s.second))
    && (!Used(s.first) ==> s.writeOffset == s.end)
  }

  /** The ClientHello is not complete yet. */
  predicate Collecting(s: Sender) {
    s.writeBuf == s.written && s.writeOffset == 0 && s.end == 0 && s.first == NO_CUT && s.second == NO_CUT
  }

  ghost predicate Sound(s: Sender) {
    && s.writeOffset <= |s.written| <= MAX_BYTE_COUNT
    && (s.scramble ==> Scrambling(s) || Collecting(s))
    && (!s.scramble ==> s.writeBuf == s.written[s.writeOffset..])
    && Truthful(s.frames, s.written)
    && NoOverlap(s.frames)
    && (forall x: nat :: Covered(s.frames, x) <==> Sent(s, x))
  }

  /** Sending a frame of bytes that were not sent before. */
  lemma SendFrame(s: Sender, s': Sender, f: CryptoFrame)
    requires Sound(s) && s'.frames == s.frames + [f] && s'.written == s.written
    requires f.data != [] && f.End() <= |s.written| && f.data == s.written[f.offset..f.End()]
    requires forall x: nat :: Has(f, x) ==> !Sent(s, x)
    requires forall x: nat :: Sent(s', x) <==> Sent(s, x) || Has(f, x)
    requires s'.writeOffset <= |s.written|
    requires s'.scramble ==> Scrambling(s')
    requires !s'.scramble ==> s'.writeBuf == s'.written[s'.writeOffset..]
    ensures Sound(s')
  {
    forall x: nat
      ensures Covered(s'.frames, x) <==> Covered(s.frames, x) || Has(f, x)
    {
      CoveredSnoc(s.frames, f, x);
    }
    forall i, j, x: nat | 0 <= i < j < |s'.frames| && Has(s'.frames[i], x)
      ensures !Has(s'.frames[j], x)
    {
      assert s'.frames[i] == s.frames[i];
      assert Covered(s.frames, x);
      if j < |s.frames| {
        assert s'.frames[j] == s.frames[j];
      }
    }
  }

  lemma CoveredSnoc(frames: seq<CryptoFrame>, f: CryptoFrame, x: nat)
    ensures Covered(frames + [f], x) <==> Covered(frames, x) || Has(f, x)
  {
    var all := frames + [f];
    if Covered(frames, x) {
      var i :| 0 <= i < |frames| && Has(frames[i], x);
      assert all[i] == frames[i];
    }
    if Has(f, x) {
      assert all[|frames|] == f;
    }
  }

  /** Plain sending. */
  lemma SendPlain(s: Sender, n: nat)
    requires Sound(s) && !s.scramble && 0 < n <= |s.writeBuf|
    ensures var f := CryptoFrame(s.writeOffset, s.writeBuf[..n]);
            Sound(s.(writeBuf := s.writeBuf[n..], writeOffset := s.writeOffset + n, frames := s.frames + [f]))
  {
    var f := CryptoFrame(s.writeOffset, s.writeBuf[..n]);
    var s' := s.(writeBuf := s.writeBuf[n..], writeOffset := s.writeOffset + n, frames := s.frames + [f]);
    assert s.written[s.writeOffset..][n..] == s.written[s.writeOffset + n..];
    SendFrame(s, s', f);
  }

  /** The first cut that starts after the write offset. */
  function NextCut(s: Sender): Cut {
    if Used(s.first) && s.first.start > s.writeOffset then s.first
    else if Used(s.second) && s.second.start > s.writeOffset then s.second
    else NO_CUT
  }

  function PassEnd(s: Sender): int {
    if Used(NextCut(s)) then NextCut(s).start else s.end
  }

  function AfterPass(s: Sender, n: nat): int {
    if s.writeOffset + n == NextCut(s).start then NextCut(s).end else s.writeOffset + n
  }

  /** The first pass, up to the next cut; a cut that is reached is skipped. */
  lemma SendPass(s: Sender, n: nat)
    requires Sound(s) && s.scramble && s.writeOffset != s.end && 0 < n && s.writeOffset + n <= PassEnd(s)
    ensures var f := CryptoFrame(s.writeOffset, s.writeBuf[s.writeOffset..s.writeOffset + n]);
            0 <= AfterPass(s, n) && Sound(s.(writeOffset := AfterPass(s, n), frames := s.frames + [f]))
  {
    var f := CryptoFrame(s.writeOffset, s.writeBuf[s.writeOffset..s.writeOffset + n]);
    var s' := s.(writeOffset := AfterPass(s, n), frames := s.frames + [f]);
    SendFrame(s, s', f);
  }

  /** Takes `n` bytes from the front of a cut. */
  function Shorten(c: Cut, n: nat): Cut {
    if c.start + n == c.end then NO_CUT else c.(start := c.start + n)
  }

  /** The second pass, over the cuts. */
  lemma SendCut(s: Sender, n: nat)
    requires Sound(s) && s.scramble && s.writeOffset == s.end && (Used(s.first) || Used(s.second))
    requires var c := if Used(s.first) then s.first else s.second; 0 < n <= c.end - c.start
    ensures var c := if Used(s.first) then s.first else s.second;
            var f := CryptoFrame(c.start, s.writeBuf[c.start..c.start + n]);
            var first := if Used(s.first) then Shorten(s.first, n) else s.first;
            var second := if Used(s.first) then s.second else Shorten(s.second, n);
            Sound(Finish(s.(first := first, second := second, frames := s.frames + [f])))
  {
    var c := if Used(s.first) then s.first else s.second;
    var f := CryptoFrame(c.start, s.writeBuf[c.start..c.start + n]);
    var first := if Used(s.first) then Shorten(s.first, n) else s.first;
    var second := if Used(s.first) then s.second else Shorten(s.second, n);
    SendFrame(s, Finish(s.(first := first, second := second, frames := s.frames + [f])), f);
  }

  /** Once there is no cut left, the rest is sent plainly. */
  function Finish(s: Sender): Sender
    requires 0 <= s.end <= |s.writeBuf|
  {
    if Used(s.first) || Used(s.second) then s
    else s.(scramble := false, writeBuf := s.writeBuf[s.end..], end := INVALID_BYTE_COUNT)
  }

  /** The most data a CRYPTO frame at `offset` can have in `maxLen` bytes. */
  function MaxDataLen(offset: nat, maxLen: nat): nat
    requires offset <= MAX_BYTE_COUNT && maxLen <= MAX_BYTE_COUNT
  {
    var headerLen := 1 + VarintLen.Len(offset) + 1;
    if headerLen > maxLen then 0
    else
      var n := maxLen - headerLen;
      if VarintLen.Len(n) != 1 then n - 1 else n
  }

  /** The length of the frame when it is encoded. */
  function EncodedLen(f: CryptoFrame): nat
    requires f.offset <= MAX_BYTE_COUNT && |f.data| <= MAX_BYTE_COUNT
  {
    1 + VarintLen.Len(f.offset) + VarintLen.Len(|f.data|) + |f.data|
  }

  /** A frame with as much data as allowed fits, and at most one byte of the room is left; it may be too long only if
      its data is longer than 16383 bytes. */
  lemma MaxDataFits(f: CryptoFrame, maxLen: nat)
    requires f.offset <= MAX_BYTE_COUNT && maxLen <= MAX_BYTE_COUNT
    requires 0 < |f.data| <= MaxDataLen(f.offset, maxLen)
    ensures |f.data| <= 16383 ==> EncodedLen(f) <= maxLen
    ensures |f.data| == MaxDataLen(f.offset, maxLen) ==> maxLen - 1 <= EncodedLen(f)
  {
  }

  /** What holds for every ClientHello: the slices that sending takes are within the buffer, and the cuts are for a
      complete message. */
  predicate InBounds(s: Sender) {
    && |s.written| <= MAX_BYTE_COUNT
    && (!s.scramble ==> s.writeOffset + |s.writeBuf| == |s.written|)
    && (s.scramble ==>
          && s.writeOffset <= s.end <= |s.writeBuf| == |s.written|
          && (s.end == 0 ==> !Used(s.first) && !Used(s.second))
          && (s.end > 0 ==> ClientHello.Locate(s.writeBuf[..s.end]).Found?)
          && (Used(s.first) ==> 0 <= s.first.start <= s.first.end <= s.end)
          && (Used(s.second) ==> 0 <= s.second.start <= s.second.end <= s.end))
  }

  /** PopCryptoFrame */
  function Pop(s: Sender, maxLen: nat): (Sender, Option<CryptoFrame>)
    requires InBounds(s) && maxLen <= MAX_BYTE_COUNT
  {
    if !s.scramble then PopPlain(s, maxLen)
    else if s.writeOffset == s.end then PopCut(s, maxLen)
    else PopPass(s, maxLen)
  }

  function PopPlain(s: Sender, maxLen: nat): (Sender, Option<CryptoFrame>)
    requires InBounds(s) && maxLen <= MAX_BYTE_COUNT
  {
    var n := Min(MaxDataLen(s.writeOffset, maxLen), |s.writeBuf|);
    if n <= 0 then (s, None)
    else
      var f := CryptoFrame(s.writeOffset, s.writeBuf[..n]);
      (s.(writeBuf := s.writeBuf[n..], writeOffset := s.writeOffset + n, frames := s.frames + [f]), Some(f))
  }

  function PopCut(s: Sender, maxLen: nat): (Sender, Option<CryptoFrame>)
    requires InBounds(s) && s.scramble && maxLen <= MAX_BYTE_COUNT
  {
    if !Used(s.first) && !Used(s.second) then (Finish(s), None)
    else
      var c := if Used(s.first) then s.first else s.second;
      var n := Min(MaxDataLen(c.start, maxLen), c.end - c.start);
      if n <= 0 then (s, None)
      else
        var f := CryptoFrame(c.start, s.writeBuf[c.start..c.start + n]);
        var first := if Used(s.first) then Shorten(s.first, n) else s.first;
        var second := if Used(s.first) then s.second else Shorten(s.second, n);
        (Finish(s.(first := first, second := second, frames := s.frames + [f])), Some(f))
  }

  function PopPass(s: Sender, maxLen: nat): (Sender, Option<CryptoFrame>)
    requires InBounds(s) && s.scramble && maxLen <= MAX_BYTE_COUNT
  {
    var n := Min(MaxDataLen(s.writeOffset, maxLen), PassEnd(s) - s.writeOffset);
    if n <= 0 then (s, None)
    else
      var f := CryptoFrame(s.writeOffset, s.writeBuf[s.writeOffset..s.writeOffset + n]);
      (s.(writeOffset := AfterPass(s, n), frames := s.frames + [f]), Some(f))
  }

  /** Sending never leaves the buffer, whatever the cuts are. */
  lemma PopInBounds(s: Sender, maxLen: nat)
    requires InBounds(s) && maxLen <= MAX_BYTE_COUNT
    ensures InBounds(Pop(s, maxLen).0)
  {
    hide MaxDataLen, ClientHello.Locate;
  }

  /** Every way of sending keeps the stream sound. */
  lemma PopSound(s: Sender, maxLen: nat)
    requires InBounds(s) && Sound(s) && maxLen <= MAX_BYTE_COUNT
    ensures Sound(Pop(s, maxLen).0)
  {
    hide MaxDataLen, Sent, Covered, Truthful, NoOverlap, ClientHello.Locate;
    if !s.scramble {
      var n := Min(MaxDataLen(s.writeOffset, maxLen), |s.writeBuf|);
      if n > 0 {
        SendPlain(s, n);
      }
    } else if s.writeOffset != s.end {
      var n := Min(MaxDataLen(s.writeOffset, maxLen), PassEnd(s) - s.writeOffset);
      if n > 0 {
        SendPass(s, n);
      }
    } else if Used(s.first) || Used(s.second) {
      var c := if Used(s.first) then s.first else s.second;
      var n := Min(MaxDataLen(c.start, maxLen), c.end - c.start);
      if n > 0 {
        SendCut(s, n);
      }
    } else {
      StopCollecting(s);
    }
  }

  lemma StopCollecting(s: Sender)
    requires Sound(s) && s.scramble && Collecting(s)
    ensures Sound(Finish(s))
  {
    assert forall x: nat :: !Sent(s, x) && !Sent(Finish(s), x);
  }

  /** How many bytes are still to be sent, at most. */
  function Unsent(s: Sender): int {
    if !s.scramble then |s.writeBuf|
    else |s.writeBuf| - s.writeOffset + CutLen(s.first) + CutLen(s.second) + 1
  }

  function CutLen(c: Cut): int {
    if Used(c) then c.end - c.start else 0
  }

  /** A frame at any offset up to `limit` has room for a byte. */
  ghost predicate HasRoom(maxLen: nat, limit: nat) {
    && maxLen <= MAX_BYTE_COUNT
    && forall offset: nat :: offset <= limit <= MAX_BYTE_COUNT ==> MaxDataLen(offset, maxLen) > 0
  }

  /** Something is sent whenever there is data and room for one byte, so that everything is sent in the end. */
  lemma PopProgress(s: Sender, maxLen: nat)
    requires InBounds(s) && Sound(s) && HasData(s) && HasRoom(maxLen, |s.written|)
    ensures Pop(s, maxLen).1.Some? && 0 <= Unsent(Pop(s, maxLen).0) < Unsent(s)
  {
    hide MaxDataLen, Sent, Covered, Truthful, NoOverlap, ClientHello.Locate;
    if s.scramble {
      assert Scrambling(s);
    }
  }

  /** The ClientHello is not waited for. */
  predicate Sending(s: Sender) {
    s.scramble ==> Scrambling(s)
  }

  lemma PopKeepsSending(s: Sender, maxLen: nat)
    requires InBounds(s) && Sound(s) && Sending(s) && maxLen <= MAX_BYTE_COUNT
    ensures Sending(Pop(s, maxLen).0)
  {
    hide MaxDataLen, Sent, Covered, Truthful, NoOverlap, ClientHello.Locate;
    PopSound(s, maxLen);
  }

  lemma PopAppends(s: Sender, maxLen: nat)
    requires InBounds(s) && maxLen <= MAX_BYTE_COUNT
    ensures var (s', f) := Pop(s, maxLen);
            s'.written == s.written && s'.frames == s.frames + if f.Some? then [f.value] else []
  {
    hide MaxDataLen, ClientHello.Locate;
  }

  lemma NothingToSend(s: Sender)
    requires Sending(s) && !HasData(s)
    ensures !s.scramble && s.writeBuf == []
  {
  }

  /** Once everything is sent, every byte written is in exactly one frame. */
  lemma AllSent(s: Sender)
    requires Sound(s) && !s.scramble && s.writeBuf == []
    ensures Truthful(s.frames, s.written) && NoOverlap(s.frames)
    ensures forall x: nat :: Covered(s.frames, x) <==> x < |s.written|
  {
  }

  /** The two cuts for a ClientHello of length `end`: the second half of the host name, and 16 bytes from the middle of
      the ECH extension type. */
  function SniCut(r: ClientHello.Found): Cut
    requires r.Found?
  {
    Cut(r.sniPos + r.sniLen / 2, r.sniPos + r.sniLen)
  }

  function EchCut(r: ClientHello.Found, end: int, before: Cut): Cut
    requires r.Found?
  {
    if r.echPos > 0 then Cut(r.echPos + 1, Min(r.echPos + 17, end)) else before
  }

  /** The comparison by which the cuts are sorted says that `a` comes before `b`. */
  predicate Before(a: Cut, b: Cut) {
    a.start != INVALID_BYTE_COUNT && a.start <= b.start
  }

  function Cuts(r: ClientHello.Found, end: int, before: Cut): (Cut, Cut)
    requires r.Found?
  {
    var sni, ech := SniCut(r), EchCut(r, end, before);
    if Before(ech, sni) then (ech, sni) else (sni, ech)
  }

  /** Both cuts are non-empty parts of the message, and they do not touch. */
  predicate GoodCuts(first: Cut, second: Cut, end: int) {
    && Used(first) && 0 < first.start < first.end <= end
    && (Used(second) ==> first.end < second.start < second.end <= end)
  }

  /** Where the second half of the host name may lie: it is not empty, and it does not touch the cut through the ECH
      extension. */
  predicate GoodPositions(r: ClientHello.Found, end: int)
    requires r.Found?
  {
    && 0 < r.sniPos + r.sniLen / 2 < r.sniPos + r.sniLen
    && (r.echPos == -1 || r.sniPos + r.sniLen <= r.echPos || Min(r.echPos + 17, end) < r.sniPos + r.sniLen / 2)
  }

  predicate NothingToCut(r: ClientHello.Found)
    requires r.Found?
  {
    r.sniPos == -1 && r.echPos == -1
  }

  /** The cuts are good exactly if the positions are. */
  lemma CutsAreGood(r: ClientHello.Found, end: nat)
    requires ClientHello.Within(r, end) && !NothingToCut(r)
    ensures GoodCuts(Cuts(r, end, NO_CUT).0, Cuts(r, end, NO_CUT).1, end) <==> GoodPositions(r, end)
  {
  }

  /** initialCryptoStream.Write */
  function Write(s: Sender, p: seq<byte>): Sender {
    var s' := s.(written := s.written + p, writeBuf := s.writeBuf + p);
    if !Searches(s) then s'
    else
      var r := ClientHello.Locate(s'.writeBuf);
      if !r.Found? then s'
      else if NothingToCut(r) then s'.(scramble := false)
      else
        var end := |s'.writeBuf|;
        var (first, second) := Cuts(r, end, s.second);
        s'.(end := end, first := first, second := second)
  }

  /** Write looks for the host name. */
  predicate Searches(s: Sender) {
    s.scramble && !Used(s.first)
  }

  predicate HasData(s: Sender) {
    if s.scramble && s.writeOffset == 0 && !Used(s.first) then false else |s.writeBuf| > 0
  }

  /** A byte written is in no frame yet. */
  ghost predicate SomeUnsent(s: Sender) {
    exists x: nat :: x < |s.written| && !Covered(s.frames, x)
  }

  /** There is data to be sent exactly if a byte written is in no frame yet, unless the ClientHello is still waited for.
      */
  lemma HasDataMeans(s: Sender)
    requires Sound(s)
    ensures HasData(s) <==> !(s.scramble && Collecting(s)) && SomeUnsent(s)
  {
    hide Covered, Truthful, NoOverlap, SomeUnsent;
    if !s.scramble {
      UnsentPlain(s);
    } else if !Collecting(s) {
      UnsentCut(s);
    }
  }

  lemma UnsentPlain(s: Sender)
    requires Sound(s) && !s.scramble
    ensures SomeUnsent(s) <==> s.writeBuf != []
  {
    hide Covered, Truthful, NoOverlap;
    if s.writeBuf != [] {
      assert !Sent(s, s.writeOffset);
      assert !Covered(s.frames, s.writeOffset);
    }
  }

  lemma UnsentCut(s: Sender)
    requires Sound(s) && s.scramble && Scrambling(s)
    ensures SomeUnsent(s)
  {
    hide Covered, Truthful, NoOverlap;
    var c := if Used(s.first) then s.first else s.second;
    assert Left(c, c.start);
    assert !Sent(s, c.start);
    assert !Covered(s.frames, c.start);
  }

  /** An empty write that would look for the host name again, in a ClientHello that was cut already. */
  predicate Repeats(s: Sender, p: seq<byte>) {
    p == [] && Searches(s) && 0 < s.end == |s.writeBuf|
  }

  /** A ClientHello is not found a second time behind the first one. */
  lemma FoundOnce(s: Sender, p: seq<byte>)
    requires InBounds(s) && s.scramble && 0 < s.end < |s.writeBuf + p|
    ensures !ClientHello.Locate(s.writeBuf + p).Found?
  {
    hide ClientHello.Locate;
    if ClientHello.Locate(s.writeBuf + p).Found? {
      assert (s.writeBuf + p)[..s.end] == s.writeBuf[..s.end];
      ClientHello.LocatedOnce(s.writeBuf + p, s.end);
    }
  }

  /** Writing keeps the bounds, whatever is found. */
  lemma WriteInBounds(s: Sender, p: seq<byte>)
    requires InBounds(s) && !Repeats(s, p) && |s.written| + |p| <= MAX_BYTE_COUNT
    ensures InBounds(Write(s, p))
  {
    hide ClientHello.Locate;
    var all := s.writeBuf + p;
    assert s.scramble ==> all[..s.end] == s.writeBuf[..s.end];
    assert all[..|all|] == all;
    if Searches(s) && ClientHello.Locate(all).Found? {
      ClientHello.LocateWithin(all);
      if s.end > 0 {
        FoundOnce(s, p);
      }
    }
  }

  /** If this write completes the ClientHello, its cuts are good. */
  predicate CutsWell(s: Sender, p: seq<byte>) {
    var r := ClientHello.Locate(s.writeBuf + p);
    Searches(s) && r.Found? && !NothingToCut(r) ==> GoodPositions(r, |s.writeBuf + p|)
  }

  /** Writing keeps the stream sound, provided that the cuts are good once they are made. */
  lemma WriteSound(s: Sender, p: seq<byte>)
    requires InBounds(s) && Sound(s) && !Repeats(s, p) && |s.written| + |p| <= MAX_BYTE_COUNT
    requires CutsWell(s, p)
    ensures Sound(Write(s, p))
  {
    hide ClientHello.Locate, Covered, NoOverlap, Truthful;
    var all := s.writeBuf + p;
    if Searches(s) && ClientHello.Locate(all).Found? {
      if s.end > 0 {
        FoundOnce(s, p);
      }
      ClientHello.LocateWithin(all);
      if !NothingToCut(ClientHello.Locate(all)) {
        CutsAreGood(ClientHello.Locate(all), |all|);
      }
    }
    WriteKeeps(s, p);
  }

  lemma SameSlice(written: seq<byte>, p: seq<byte>, from: nat, to: nat)
    requires from <= to <= |written|
    ensures (written + p)[from..to] == written[from..to]
  {
  }

  lemma WriteKeeps(s: Sender, p: seq<byte>)
    requires Sound(s) && |s.written| + |p| <= MAX_BYTE_COUNT
    requires var r := ClientHello.Locate(s.writeBuf + p);
             Searches(s) && r.Found? ==>
               && Collecting(s)
               && (!NothingToCut(r) ==>
                     var (first, second) := Cuts(r, |s.writeBuf + p|, NO_CUT);
                     GoodCuts(first, second, |s.writeBuf + p|))
    ensures Sound(Write(s, p))
  {
    hide ClientHello.Locate, Covered, NoOverlap;
    var s' := Write(s, p);
    forall i | 0 <= i < |s.frames|
      ensures s.frames[i].data == s'.written[s.frames[i].offset..s.frames[i].End()]
    {
      SameSlice(s.written, p, s.frames[i].offset, s.frames[i].End());
    }
    assert forall x: nat :: Sent(s', x) <==> Sent(s, x);
  }
}

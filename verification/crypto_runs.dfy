/** A whole ClientHello, from the sender to the receiver. */
module CryptoRuns {
  import opened Protocol
  import opened CryptoLedger
  import opened CryptoStreams
  import opened ScramblingRuns
  import FrameSorting
  import FrameQueue
  import Reassembly
  import ClientHello

  /** Sends what is left to be sent, in frames of any sizes that have room for a byte. */
  method SendAll(stream: InitialCryptoStream, room: nat -> nat) returns (sent: seq<CryptoFrame>)
    requires stream.Valid() && Sound(stream.State()) && Sending(stream.State())
    requires forall i :: HasRoom(room(i), |stream.written|)
    modifies stream, stream.cuts
    ensures stream.Valid() && stream.written == old(stream.written)
    ensures old(stream.frames) + sent == stream.frames
    ensures Truthful(stream.frames, stream.written) && NoOverlap(stream.frames)
    ensures forall x: nat :: Covered(stream.frames, x) <==> x < |stream.written|
  {
    hide InBounds, Sound, Sending, HasData, Unsent, Pop, MaxDataLen, Scrambling, Covered, Truthful, NoOverlap;
    sent := [];
    var more := stream.HasDataToSend();
    var packet := 0;
    while more
      invariant stream.Valid() && Sound(stream.State()) && stream.written == old(stream.written)
      invariant more <==> HasData(stream.State())
      invariant Sending(stream.State()) && old(stream.frames) + sent == stream.frames
      decreases Unsent(stream.State())
    {
      ghost var s := stream.State();
      PopProgress(s, room(packet));
      var f := stream.PopCryptoFrame(room(packet));
      PopAppends(s, room(packet));
      sent := sent + [f.value];
      PopKeepsSending(s, room(packet));
      more := stream.HasDataToSend();
      packet := packet + 1;
    }
    NothingToSend(stream.State());
    AllSent(stream.State());
  }

  /** Byte `x` was in one of the first `n` frames delivered. */
  ghost predicate Got(frames: seq<CryptoFrame>, order: seq<nat>, n: nat, x: nat) {
    exists j :: 0 <= j < n <= |order| && order[j] < |frames| && Has(frames[order[j]], x)
  }

  /** What the receiver was offered after the first `n` frames delivered. */
  ghost predicate Offered(offered: set<(nat, byte)>, frames: seq<CryptoFrame>, order: seq<nat>, n: nat,
                          written: seq<byte>)
  {
    && (forall x: nat :: Reassembly.Arrived(offered, x) <==> Got(frames, order, n, x))
    && (forall x: nat, b: byte :: (x, b) in offered ==> x < |written| && b == written[x])
  }

  lemma OfferedNext(offered: set<(nat, byte)>, frames: seq<CryptoFrame>, order: seq<nat>, n: nat, written: seq<byte>)
    requires Offered(offered, frames, order, n, written) && Truthful(frames, written)
    requires n < |order| && order[n] < |frames|
    ensures Offered(offered + Reassembly.BytesAt(frames[order[n]].data, frames[order[n]].offset), frames, order, n + 1,
                    written)
  {
    var f := frames[order[n]];
    forall x: nat
      ensures Reassembly.Arrived(offered + Reassembly.BytesAt(f.data, f.offset), x) <==> Got(frames, order, n + 1, x)
    {
      Reassembly.ArrivedAfter(offered, f.data, f.offset, x);
    }
  }

  /** Frames that carry what was written are delivered in any order, as often as one likes, to a new stream: it is never
      refused any of them, and what is read is what was written, up to the first byte that was not delivered. */
  method Deliver(frames: seq<CryptoFrame>, order: seq<nat>, ghost written: seq<byte>) returns (data: seq<byte>)
    requires Truthful(frames, written) && |written| <= MAX_CRYPTO_STREAM_OFFSET
    requires forall j :: 0 <= j < |order| ==> order[j] < |frames|
    ensures data <= written
    ensures forall x: nat :: x < |data| ==> Got(frames, order, |order|, x)
    ensures !Got(frames, order, |order|, |data|)
  {
    hide Offered, Got, Reassembly.Reassembling, Reassembly.BytesAt, Reassembly.Arrived, FrameQueue.Balanced, Limited;
    var stream := new InitialCryptoStream(false);
    NothingOffered(frames, order, written);
    var j := 0;
    while j < |order|
      invariant 0 <= j <= |order| && fresh(stream) && fresh(stream.queue) && stream.Receiving() && !stream.finished
      invariant Offered(stream.queue.history.offered, frames, order, j, written)
      invariant stream.queue.history.delivered == []
    {
      OfferedNext(stream.queue.history.offered, frames, order, j, written);
      var err := stream.HandleCryptoFrame(frames[order[j]]);
      assert err == None;
      j := j + 1;
    }
    data := [];
    while true
      invariant fresh(stream) && fresh(stream.queue) && stream.Receiving()
      invariant Offered(stream.queue.history.offered, frames, order, |order|, written)
      invariant data == stream.queue.history.delivered
      decreases MAX_BYTE_COUNT - stream.queue.readPos
    {
      ReadSoFar(stream, frames, order, written);
      var d := stream.GetCryptoData();
      data := data + d;
      ReadSoFar(stream, frames, order, written);
      if d == [] {
        break;
      }
    }
  }

  lemma NothingOffered(frames: seq<CryptoFrame>, order: seq<nat>, written: seq<byte>)
    ensures Offered({}, frames, order, 0, written)
  {
  }

  lemma ReadSoFar(stream: InitialCryptoStream, frames: seq<CryptoFrame>, order: seq<nat>, written: seq<byte>)
    requires stream.Receiving() && Offered(stream.queue.history.offered, frames, order, |order|, written)
    ensures stream.queue.history.delivered <= written
    ensures |stream.queue.history.delivered| == stream.queue.readPos < MAX_BYTE_COUNT
    ensures forall x: nat :: x < stream.queue.readPos ==> Got(frames, order, |order|, x)
    ensures Reassembly.Arrived(stream.queue.history.offered, stream.queue.readPos) <==>
            Got(frames, order, |order|, stream.queue.readPos)
  {
    hide Got, FrameQueue.Balanced, Limited;
    var d := stream.queue.history.delivered;
    assert |d| > 0 ==> (|d| - 1, d[|d| - 1]) in stream.queue.history.offered;
    forall x: nat | x < |d|
      ensures x < |written| && d[x] == written[x] && Got(frames, order, |order|, x)
    {
      assert (x, d[x]) in stream.queue.history.offered;
      assert Reassembly.Arrived(stream.queue.history.offered, x);
    }
  }

  lemma AllDelivered(frames: seq<CryptoFrame>, order: seq<nat>, written: seq<byte>, data: seq<byte>)
    requires forall x: nat :: Covered(frames, x) <==> x < |written|
    requires forall i :: 0 <= i < |frames| ==> i in order
    requires data <= written && !Got(frames, order, |order|, |data|)
    ensures data == written
  {
    forall i | 0 <= i < |frames|
      ensures !Has(frames[i], |data|)
    {
      assert i in order;
    }
    assert !Covered(frames, |data|);
  }

  /** What the stream did with the first `i` events. */
  ghost predicate Follows(s: Sender, events: seq<Event>, i: nat)
    requires i <= |events|
  {
    && InBounds(s) && Sound(s) && s.written == Written(events[..i])
    && (Waiting(s) ==>
          && s == Collected(s.written)
          && forall k: nat :: k <= i ==> !ClientHello.WellFormed(Written(events[..k])))
  }

  lemma FollowsNew(events: seq<Event>)
    ensures Follows(New(true), events, 0)
  {
    hide ClientHello.WellFormed;
    NewSound(true);
    assert Written(events[..0]) == [];
    ClientHello.LocateMeans([]);
    Shorter([]);
  }

  lemma FollowsPop(s: Sender, events: seq<Event>, i: nat)
    requires i < |events| && Follows(s, events, i) && events[i].PopFrame? && Allowed(s, events[i])
    ensures Follows(if HasData(s) then Next(s, events[i]) else s, events, i + 1)
  {
    hide InBounds, Sound, ClientHello.WellFormed, Pop;
    assert events[..i + 1][..i] == events[..i];
    assert Written(events[..i + 1]) == Written(events[..i]);
    if HasData(s) {
      StepInBounds(s, events[i]);
      StepWritten(s, events[i]);
      PopSound(s, events[i].maxLen);
      StillSending(s, events[i]);
    }
  }

  lemma FollowsWrite(s: Sender, events: seq<Event>, i: nat)
    requires i < |events| && Follows(s, events, i) && events[i].WriteMore? && Allowed(s, events[i])
    requires GoodHello(Written(events[..i + 1]))
    ensures Follows(Next(s, events[i]), events, i + 1)
  {
    hide InBounds, Sound, ClientHello.WellFormed, ClientHello.Locate, GoodHello, Cuts, NothingToCut;
    var e := events[i];
    assert events[..i + 1][..i] == events[..i];
    StepInBounds(s, e);
    StepWritten(s, e);
    StepSound(s, e);
    if !Waiting(s) {
      StillSending(s, e);
    } else {
      ClientHello.LocateMeans(Written(events[..i + 1]));
      Shorter(Written(events[..i + 1]));
    }
  }

  lemma {:induction false} PrefixWritten(events: seq<Event>, i: nat)
    requires i <= |events|
    ensures Written(events[..i]) <= Written(events)
    decreases |events|
  {
    if i < |events| {
      assert events[..|events| - 1][..i] == events[..i];
      PrefixWritten(events[..|events| - 1], i);
    } else {
      assert events[..i] == events;
    }
  }

  /** Lossless scrambling. A new client stream is given a ClientHello in any pieces, and more data behind it; frames of
      any sizes are taken out whenever there is data, and the rest at the end; every frame arrives at least once, in any
      order. If the host name and the ECH extension are at good positions, what is read is what was written. */
  method Transfer(events: seq<Event>, room: nat -> nat, arrival: nat -> seq<nat>) returns (data: seq<byte>)
    requires forall i :: 0 <= i < |events| ==>
              if events[i].WriteMore? then events[i].p != [] else events[i].maxLen <= MAX_BYTE_COUNT
    requires |Written(events)| <= MAX_CRYPTO_STREAM_OFFSET && GoodHello(Written(events))
    requires exists k: nat :: k <= |events| && ClientHello.WellFormed(Written(events[..k]))
    requires forall i :: HasRoom(room(i), |Written(events)|)
    requires forall n, i: nat :: i < n ==> i in arrival(n)
    requires forall n, j: nat :: j < |arrival(n)| ==> arrival(n)[j] < n
    ensures data == Written(events)
  {
    hide InBounds, Sound, Sending, HasRoom, MaxDataLen, Truthful, Covered, NoOverlap, Got, GoodHello,
         ClientHello.WellFormed, Follows;
    var stream := new InitialCryptoStream(true);
    var sent := Perform(stream, events);
    var i := |events|;
    assert events[..i] == events;
    FollowsSending(stream.State(), events);
    var rest := SendAll(stream, room);
    sent := sent + rest;
    data := Deliver(sent, arrival(|sent|), stream.written);
    AllDelivered(sent, arrival(|sent|), stream.written, data);
  }

  lemma FollowsSending(s: Sender, events: seq<Event>)
    requires Follows(s, events, |events|)
    requires exists k: nat :: k <= |events| && ClientHello.WellFormed(Written(events[..k]))
    ensures InBounds(s) && Sound(s) && Sending(s) && s.written == Written(events)
  {
    hide Covered, Truthful, NoOverlap, Sent, ClientHello.WellFormed;
    assert events[..|events|] == events;
  }

  /** Writes and asks for frames as told. */
  method Perform(stream: InitialCryptoStream, events: seq<Event>) returns (sent: seq<CryptoFrame>)
    requires stream.Valid() && stream.State() == New(true)
    requires forall i :: 0 <= i < |events| ==>
              if events[i].WriteMore? then events[i].p != [] else events[i].maxLen <= MAX_BYTE_COUNT
    requires |Written(events)| <= MAX_BYTE_COUNT && GoodHello(Written(events))
    modifies stream, stream.cuts
    ensures stream.Valid() && Follows(stream.State(), events, |events|)
    ensures sent == stream.frames
  {
    hide InBounds, Sound, HasData, Pop, Write, GoodHello, ClientHello.WellFormed, Follows, ClientHello.Locate, CutsWell,
         SomeUnsent, Collecting;
    sent := [];
    FollowsNew(events);
    var i := 0;
    while i < |events|
      invariant 0 <= i <= |events|
      invariant stream.Valid() && Follows(stream.State(), events, i)
      invariant sent == stream.frames
    {
      ghost var s := stream.State();
      PrefixGood(events, i + 1);
      FollowsWritten(s, events, i);
      assert events[..i + 1][..i] == events[..i];
      match events[i] {
      case WriteMore(p) =>
        WriteFrames(s, p);
        FollowsWrite(s, events, i);
        var _ := stream.WriteData(p);
      case PopFrame(maxLen) =>
        FollowsPop(s, events, i);
        var more := stream.HasDataToSend();
        if more {
          PopAppends(s, maxLen);
          var f := stream.PopCryptoFrame(maxLen);
          if f.Some? {
            sent := sent + [f.value];
          }
        }
      }
      i := i + 1;
    }
  }

  lemma FollowsWritten(s: Sender, events: seq<Event>, i: nat)
    requires i <= |events| && Follows(s, events, i)
    ensures InBounds(s) && s.written == Written(events[..i])
  {
  }

  lemma WriteFrames(s: Sender, p: seq<byte>)
    ensures Write(s, p).frames == s.frames
  {
  }

  lemma PrefixGood(events: seq<Event>, i: nat)
    requires i <= |events| && GoodHello(Written(events))
    ensures GoodHello(Written(events[..i])) && |Written(events[..i])| <= |Written(events)|
  {
    PrefixWritten(events, i);
    var w, v := Written(events), Written(events[..i]);
    assert w == v + w[|v|..];
    GoodBefore(v, w[|v|..]);
  }
}

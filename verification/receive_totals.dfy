/** What the events of a receive stream amount to. */
module ReceiveTotals {
  import opened Protocol
  import opened Reassembly
  import opened ReceiveLedger
  import opened ReceiveEvents
  import opened FinalSizes

  /** What the frames claim about the final size. */
  function Claims(events: seq<Event>): seq<Claim> {
    if events == [] then []
    else
      Claims(events[..|events| - 1]) +
      match events[|events| - 1]
      case StreamFrameReceived(data, offset, fin, _, violation) => [Claim(offset + |data|, fin, violation)]
      case ResetReceived(finalSize, _, _, violation) => [Claim(finalSize, true, violation)]
      case _ => []
  }

  predicate OnlyFrames(events: seq<Event>) {
    forall i :: 0 <= i < |events| ==> events[i].StreamFrameReceived? || events[i].ResetReceived?
  }

  /** The reliable size is the smallest one that a reset has announced. */
  ghost predicate Smallest(events: seq<Event>, r: nat) {
    && (exists i :: 0 <= i < |events| && events[i].ResetReceived? && events[i].reliableSize == r)
    && (forall i :: 0 <= i < |events| && events[i].ResetReceived? ==> r <= events[i].reliableSize)
  }

  ghost predicate WasReset(events: seq<Event>) {
    exists i :: 0 <= i < |events| && events[i].ResetReceived?
  }

  /** What is known about the stream after frames of any kind. */
  ghost predicate Totals(events: seq<Event>, net: Net) {
    && net.offered == EventsBytes(events)
    && UpdateAll(Claims(events)) == Some(net.flow)
    && net.finalOffset == (if net.flow.final then net.flow.highest else MAX_BYTE_COUNT)
    && (net.cancelledRemotely <==> WasReset(events))
    && (if WasReset(events) then Smallest(events, net.reliableSize) else net.reliableSize == 0)
    && !net.cancelledLocally && !net.shutdown
  }

  /** As long as the application does not interfere and the connection is not closed: what has arrived is what was in
      the frames, the final size is the one that all frames agree on, and the reliable size is the smallest one
      announced. */
  lemma {:induction false} FramesTotal(events: seq<Event>)
    requires OnlyFrames(events) && NetSteps(NewNet(), events).Some?
    requires forall i :: 0 <= i < |events| ==> InRange(events[i])
    ensures Totals(events, NetSteps(NewNet(), events).value)
  {
    hide NetStep, Totals;
    if events == [] {
      NothingYet();
    } else {
      var before, e := events[..|events| - 1], events[|events| - 1];
      FramesTotal(before);
      FrameAdds(before, NetSteps(NewNet(), before).value, e);
      assert before + [e] == events;
    }
  }

  lemma NothingYet()
    ensures Totals([], NewNet())
  {
  }

  lemma FrameAdds(before: seq<Event>, net: Net, e: Event)
    requires Totals(before, net) && (e.StreamFrameReceived? || e.ResetReceived?) && InRange(e) && NetStep(net, e).Some?
    ensures Totals(before + [e], NetStep(net, e).value)
  {
    hide NetStep, Totals;
    if e.StreamFrameReceived? {
      StreamFrameAdds(before, net, e);
    } else {
      ResetFrameAdds(before, net, e);
    }
  }

  lemma StreamFrameAdds(before: seq<Event>, net: Net, e: Event)
    requires Totals(before, net) && e.StreamFrameReceived? && InRange(e) && NetStep(net, e).Some?
    ensures Totals(before + [e], NetStep(net, e).value)
  {
    hide UpdateAll, Update, Claims, Smallest, BytesAt, TooManyHoles, WasReset;
    BytesAdd(before, e);
    ClaimAdds(before, e, net.flow);
    ResetAdds(before, e, net.reliableSize);
    Settled(net.flow, e.offset + |e.data|, e.fin, e.violation);
  }

  lemma ResetFrameAdds(before: seq<Event>, net: Net, e: Event)
    requires Totals(before, net) && e.ResetReceived? && InRange(e) && NetStep(net, e).Some?
    ensures Totals(before + [e], NetStep(net, e).value)
  {
    hide UpdateAll, Update, Claims, Smallest, BytesAt, WasReset;
    BytesAdd(before, e);
    ClaimAdds(before, e, net.flow);
    ResetAdds(before, e, net.reliableSize);
  }

  lemma BytesAdd(before: seq<Event>, e: Event)
    ensures EventsBytes(before + [e]) == EventsBytes(before) + EventBytes(e)
  {
    var events := before + [e];
    assert events[..|events| - 1] == before && events[|events| - 1] == e;
  }

  lemma Settled(flow: Flow, end: nat, fin: bool, violation: bool)
    requires Update(flow, end, fin, violation).Some?
    ensures !fin ==> Update(flow, end, fin, violation).value.final == flow.final
    ensures !fin && flow.final ==> Update(flow, end, fin, violation).value == flow
  {
  }

  lemma ClaimAdds(before: seq<Event>, e: Event, flow: Flow)
    requires UpdateAll(Claims(before)) == Some(flow) && (e.StreamFrameReceived? || e.ResetReceived?)
    ensures var c := if e.StreamFrameReceived? then Claim(e.offset + |e.data|, e.fin, e.violation)
                     else Claim(e.finalSize, true, e.violation);
            UpdateAll(Claims(before + [e])) == Update(flow, c.end, c.fin, c.violation)
    ensures var c := if e.StreamFrameReceived? then Claim(e.offset + |e.data|, e.fin, e.violation)
                     else Claim(e.finalSize, true, e.violation);
            c.fin && Update(flow, c.end, c.fin, c.violation).Some? ==>
              Update(flow, c.end, c.fin, c.violation).value == Flow(c.end, true)
  {
    var events := before + [e];
    assert events[..|events| - 1] == before;
    var claims := Claims(events);
    assert claims[..|claims| - 1] == Claims(before);
  }

  lemma ResetAdds(before: seq<Event>, e: Event, r: nat)
    ensures WasReset(before + [e]) <==> WasReset(before) || e.ResetReceived?
    ensures !e.ResetReceived? ==> (Smallest(before + [e], r) <==> Smallest(before, r))
    ensures e.ResetReceived? && !WasReset(before) ==> Smallest(before + [e], e.reliableSize)
    ensures e.ResetReceived? && Smallest(before, r) ==> Smallest(before + [e], Min(e.reliableSize, r))
  {
    var events := before + [e];
    assert events[|before|] == e && forall i :: 0 <= i < |before| ==> events[i] == before[i];
    if WasReset(before) {
      var i :| 0 <= i < |before| && before[i].ResetReceived?;
      assert events[i].ResetReceived?;
    }
    if i :| 0 <= i < |before| && before[i].ResetReceived? && before[i].reliableSize == r {
      assert events[i].ResetReceived? && events[i].reliableSize == r;
    }
  }

  ghost predicate ShutDownAmong(events: seq<Event>) {
    exists i :: 0 <= i < |events| && events[i].ShutDown?
  }

  ghost predicate CancelledAmong(events: seq<Event>) {
    exists i :: 0 <= i < |events| && events[i].ReadCancelled? && !ShutDownAmong(events[..i])
  }

  /** What the application and the end of the connection do: a stream is shut down by the shutdown, and its reader has
      cancelled if CancelRead was called before that. */
  lemma {:induction false} EndsFollow(events: seq<Event>)
    requires NetSteps(NewNet(), events).Some?
    ensures var net := NetSteps(NewNet(), events).value;
            (net.shutdown <==> ShutDownAmong(events)) && (net.cancelledLocally <==> CancelledAmong(events))
  {
    hide NetStep, ShutDownAmong, CancelledAmong;
    if events == [] {
      NothingEnded();
    } else {
      var before, e := events[..|events| - 1], events[|events| - 1];
      EndsFollow(before);
      EndsAdd(before, e);
      EndStep(NetSteps(NewNet(), before).value, e);
      assert before + [e] == events;
    }
  }

  lemma NothingEnded()
    ensures !ShutDownAmong([]) && !CancelledAmong([])
  {
  }

  lemma EndsAdd(before: seq<Event>, e: Event)
    ensures ShutDownAmong(before + [e]) <==> ShutDownAmong(before) || e.ShutDown?
    ensures CancelledAmong(before + [e]) <==> CancelledAmong(before) || (e.ReadCancelled? && !ShutDownAmong(before))
  {
    var events := before + [e];
    assert events[..|before|] == before && events[|before|] == e;
    assert forall i :: 0 <= i < |before| ==> events[..i] == before[..i] && events[i] == before[i];
    if i :| 0 <= i < |before| && before[i].ReadCancelled? && !ShutDownAmong(before[..i]) {
      assert events[i].ReadCancelled? && !ShutDownAmong(events[..i]);
    }
    if i :| 0 <= i < |before| && before[i].ShutDown? {
      assert events[i].ShutDown?;
    }
  }

  lemma EndStep(net: Net, e: Event)
    requires NetStep(net, e).Some?
    ensures var net' := NetStep(net, e).value;
            && (net'.shutdown <==> net.shutdown || e.ShutDown?)
            && (net'.cancelledLocally <==> net.cancelledLocally || (e.ReadCancelled? && !net.shutdown))
  {
  }
}
